/** The prediction route `/` of `Backend/src/routes/predict.js`: it writes the
    request body to the classifier's standard input, collects what the process
    prints on its two output streams, and answers when the process closes.
    The process is an abstract trace of output chunks in arrival order plus the
    exit code (`None` when the process was killed by a signal, which Node
    reports as a `null` code). */
module InferenceBridge {
  import opened Text
  import opened Json
  import Classifier

  /** One `data` event: a chunk on standard output or on standard error. */
  datatype Chunk = Out(data: string) | Err(data: string)

  /** What the process was sent on standard input. */
  datatype StdinEvent = Write(data: string) | End

  /** The route's reply: `{ predictedClass }`, or status 500 with `{ error, details }`. */
  datatype PredictReply = Predicted(predictedClass: string) | PredictionFailed(error: string, details: string)

  const FailureMessage := "Prediction failed"

  /** What a chunk adds to standard output. */
  function OutData(c: Chunk): string {
    if c.Out? then c.data else ""
  }

  /** What a chunk adds to standard error. */
  function ErrData(c: Chunk): string {
    if c.Err? then c.data else ""
  }

  /** All standard-output chunks of a trace, concatenated in arrival order. */
  function StdoutText(trace: seq<Chunk>): string
  {
    if trace == [] then ""
    else OutData(trace[0]) + StdoutText(trace[1..])
  }

  /** All standard-error chunks of a trace, concatenated in arrival order. */
  function StderrText(trace: seq<Chunk>): string
  {
    if trace == [] then ""
    else ErrData(trace[0]) + StderrText(trace[1..])
  }

  /** The reply the `close` handler sends for a finished trace. */
  function Reply(trace: seq<Chunk>, code: Option<int>): PredictReply
  {
    if code == Some(0) then Predicted(Trim(StdoutText(trace)))
    else PredictionFailed(FailureMessage, StderrText(trace))
  }

  /** The handler: the two `data` listeners append to `result` and `error`,
      and the `close` listener maps the exit code. */
  method Predict(trace: seq<Chunk>, code: Option<int>) returns (reply: PredictReply)
    ensures reply == Reply(trace, code)
    ensures code == Some(0) ==> reply.Predicted? && reply.predictedClass == Trim(StdoutText(trace))
    ensures code != Some(0) ==>
      reply.PredictionFailed? && reply.error == FailureMessage && reply.details == StderrText(trace)
  {
    var result := "";
    var error := "";
    for i := 0 to |trace|
      invariant result == StdoutText(trace[..i])
      invariant error == StderrText(trace[..i])
    {
      assert trace[..i + 1] == trace[..i] + [trace[i]];
      TextsOfAppend(trace[..i], [trace[i]]);
      TextsOfChunk(trace[i]);
      match trace[i] {
        case Out(data) => result := result + data;
        case Err(data) => error := error + data;
      }
    }
    assert trace[..|trace|] == trace;
    if code == Some(0) {
      return Predicted(Trim(result));
    }
    return PredictionFailed(FailureMessage, error);
  }

  /** `python.stdin.write(JSON.stringify(req.body)); python.stdin.end()`. */
  function StdinEvents(body: seq<Member>): (events: seq<StdinEvent>)
    ensures |events| == 2 && events[0].Write? && events[1] == End
  {
    [Write(Stringify(body)), End]
  }

  // -------------------------------------------------------------- properties

  /** The body is written exactly once, as a serialisation that determines it:
      two bodies give the same standard input only if they are the same. */
  lemma StdinDeterminesBody(b1: seq<Member>, b2: seq<Member>)
    ensures StdinEvents(b1) == StdinEvents(b2) <==> b1 == b2
  {
    StringifyInjective(b1, b2);
    if StdinEvents(b1) == StdinEvents(b2) {
      assert StdinEvents(b1)[0].data == Stringify(b1);
    }
  }

  /** Concatenating traces concatenates their output texts. */
  lemma TextsOfAppend(t1: seq<Chunk>, t2: seq<Chunk>)
    ensures StdoutText(t1 + t2) == StdoutText(t1) + StdoutText(t2)
    ensures StderrText(t1 + t2) == StderrText(t1) + StderrText(t2)
  {
    StdoutOfAppend(t1, t2);
    StderrOfAppend(t1, t2);
  }

  lemma {:induction false} StdoutOfAppend(t1: seq<Chunk>, t2: seq<Chunk>)
    ensures StdoutText(t1 + t2) == StdoutText(t1) + StdoutText(t2)
    decreases |t1|
  {
    if t1 == [] {
      assert t1 + t2 == t2;
    } else {
      assert (t1 + t2)[1..] == t1[1..] + t2;
      StdoutOfAppend(t1[1..], t2);
    }
  }

  lemma {:induction false} StderrOfAppend(t1: seq<Chunk>, t2: seq<Chunk>)
    ensures StderrText(t1 + t2) == StderrText(t1) + StderrText(t2)
    decreases |t1|
  {
    if t1 == [] {
      assert t1 + t2 == t2;
    } else {
      assert (t1 + t2)[1..] == t1[1..] + t2;
      StderrOfAppend(t1[1..], t2);
    }
  }

  lemma TextsOfChunk(c: Chunk)
    ensures StdoutText([c]) == OutData(c)
    ensures StderrText([c]) == ErrData(c)
  {
    assert [c][1..] == [];
  }

  /** Replacing a piece of a trace by one with the same two texts does not
      change the reply. */
  lemma SameTextsSameReply(pre: seq<Chunk>, m1: seq<Chunk>, m2: seq<Chunk>, post: seq<Chunk>, code: Option<int>)
    requires StdoutText(m1) == StdoutText(m2) && StderrText(m1) == StderrText(m2)
    ensures Reply(pre + m1 + post, code) == Reply(pre + m2 + post, code)
  {
    TextsOfAppend(pre + m1, post);
    TextsOfAppend(pre, m1);
    TextsOfAppend(pre + m2, post);
    TextsOfAppend(pre, m2);
  }

  /** How the streams are cut into chunks does not matter: splitting one
      chunk into two at any point leaves the reply unchanged. */
  lemma ChunkBoundariesDoNotMatter(pre: seq<Chunk>, post: seq<Chunk>, c: Chunk, k: nat, code: Option<int>)
    requires k <= |c.data|
    ensures var split := if c.Out? then [Out(c.data[..k]), Out(c.data[k..])] else [Err(c.data[..k]), Err(c.data[k..])];
      Reply(pre + split + post, code) == Reply(pre + [c] + post, code)
  {
    var split := if c.Out? then [Out(c.data[..k]), Out(c.data[k..])] else [Err(c.data[..k]), Err(c.data[k..])];
    SplitChunkTexts(c, k);
    SameTextsSameReply(pre, split, [c], post, code);
  }

  lemma SplitChunkTexts(c: Chunk, k: nat)
    requires k <= |c.data|
    ensures var split := if c.Out? then [Out(c.data[..k]), Out(c.data[k..])] else [Err(c.data[..k]), Err(c.data[k..])];
      StdoutText(split) == StdoutText([c]) && StderrText(split) == StderrText([c])
  {
    var split := if c.Out? then [Out(c.data[..k]), Out(c.data[k..])] else [Err(c.data[..k]), Err(c.data[k..])];
    TextsOfAppend([split[0]], [split[1]]);
    assert [split[0]] + [split[1]] == split;
    TextsOfChunk(split[0]);
    TextsOfChunk(split[1]);
    TextsOfChunk(c);
    assert c.data[..k] + c.data[k..] == c.data;
  }

  /** The interleaving of the two streams does not matter: swapping an
      adjacent standard-output chunk and standard-error chunk leaves the reply
      unchanged. */
  lemma InterleavingDoesNotMatter(pre: seq<Chunk>, post: seq<Chunk>, o: string, e: string, code: Option<int>)
    ensures Reply(pre + [Out(o), Err(e)] + post, code) == Reply(pre + [Err(e), Out(o)] + post, code)
  {
    TextsOfAppend([Out(o)], [Err(e)]);
    TextsOfAppend([Err(e)], [Out(o)]);
    TextsOfChunk(Out(o));
    TextsOfChunk(Err(e));
    SameTextsSameReply(pre, [Out(o), Err(e)], [Err(e), Out(o)], post, code);
  }

  /** Exit code 0 ignores standard error; any other code, `null` included,
      ignores standard output, however much of it there is. */
  lemma ReplyIgnoresOtherStream(t1: seq<Chunk>, t2: seq<Chunk>, code: Option<int>)
    ensures code == Some(0) && StdoutText(t1) == StdoutText(t2) ==> Reply(t1, code) == Reply(t2, code)
    ensures code != Some(0) && StderrText(t1) == StderrText(t2) ==> Reply(t1, code) == Reply(t2, code)
    ensures code != Some(0) ==> Reply(t1, code).details == StderrText(t1)
  {
  }

  /** End to end with the classifier: a run that exits 0 prints the label and
      a newline, and the route answers with exactly that label, however the
      line was cut into chunks and whatever diagnostics went to standard
      error. */
  lemma ClassifierLabelReachesReply(trace: seq<Chunk>, k: int)
    requires StdoutText(trace) == Classifier.ClassLabel(k) + "\n"
    ensures Reply(trace, Some(0)) == Predicted(Classifier.ClassLabel(k))
  {
    Classifier.ClassLabelHasNoSpace(k);
    TrimDropsTrailingSpace(Classifier.ClassLabel(k), "\n");
  }
}
