/** The `/recommend` route: the cache key built from the request body, the
    prompt template, and the process-wide recommendation cache with its
    hit / miss / store / failure paths. The generative-text call is an
    injected function from the prompt to its outcome. */
module RecommendationEngine {
  import opened Text
  import opened Json

  const PredictedClass := "predictedClass"

  // ---------------------------------------------------------------- cache key

  /** `{ predictedClass, ...userInputs }`: the class first, then the other
      body properties in their order. `JSON.stringify` drops an `undefined`
      property, so a body without a class has no class member in the key. */
  function KeyObject(body: seq<Member>): seq<Member>
  {
    match Lookup(body, PredictedClass)
    case Some(v) => [Member(PredictedClass, v)] + Without(body, PredictedClass)
    case None => Without(body, PredictedClass)
  }

  /** `JSON.stringify({ predictedClass, ...userInputs })`. */
  function CacheKey(body: seq<Member>): string
  {
    Stringify(KeyObject(body))
  }

  /** The key object holds exactly the body's properties: moving the class to
      the front loses and duplicates nothing. */
  lemma {:induction false} KeyObjectIsPermutation(body: seq<Member>)
    requires DistinctNames(body)
    ensures multiset(KeyObject(body)) == multiset(body)
  {
    WithoutSplitsOff(body, PredictedClass);
  }

  /** The layout of the key object: a body whose class sits between two runs
      of other properties gives the class first, then the properties before
      it, then those after it, each run in body order. */
  lemma ClassMovesToFront(a: seq<Member>, v: Value, b: seq<Member>)
    requires forall m :: m in a ==> m.name != PredictedClass
    requires forall m :: m in b ==> m.name != PredictedClass
    ensures KeyObject(a + [Member(PredictedClass, v)] + b) == [Member(PredictedClass, v)] + a + b
  {
    var c := Member(PredictedClass, v);
    assert a + [c] + b == a + ([c] + b);
    LookupAppend(a, [c] + b, PredictedClass);
    assert ([c] + b)[0] == c;
    WithoutKeepsOrder(a, [c] + b, c, PredictedClass);
    WithoutKeepsOrder([c], b, c, PredictedClass);
    WithoutAbsent(a, PredictedClass);
    WithoutAbsent(b, PredictedClass);
  }

  lemma WithoutSplitsOff(ms: seq<Member>, name: string)
    requires DistinctNames(ms)
    ensures Lookup(ms, name).None? ==> Without(ms, name) == ms
    ensures Lookup(ms, name).Some? ==>
      multiset(ms) == multiset{Member(name, Lookup(ms, name).value)} + multiset(Without(ms, name))
  {
    if Lookup(ms, name).None? {
      WithoutAbsent(ms, name);
    } else {
      WithoutRemovesOne(ms, name);
    }
  }

  lemma {:induction false} WithoutRemovesOne(ms: seq<Member>, name: string)
    requires DistinctNames(ms) && Lookup(ms, name).Some?
    ensures multiset(ms) == multiset{Member(name, Lookup(ms, name).value)} + multiset(Without(ms, name))
  {
    assert ms == [ms[0]] + ms[1..];
    if ms[0].name == name {
      assert forall m :: m in ms[1..] ==> m.name != name;
      WithoutAbsent(ms[1..], name);
    } else {
      WithoutRemovesOne(ms[1..], name);
    }
  }

  /** Two bodies share a key exactly when they carry the same class (or both
      none) and the same other properties in the same order. */
  lemma CacheKeyInjective(b1: seq<Member>, b2: seq<Member>)
    ensures CacheKey(b1) == CacheKey(b2) <==>
      Lookup(b1, PredictedClass) == Lookup(b2, PredictedClass) && Without(b1, PredictedClass) == Without(b2, PredictedClass)
  {
    StringifyInjective(KeyObject(b1), KeyObject(b2));
    var k1, k2 := KeyObject(b1), KeyObject(b2);
    if k1 == k2 {
      var l1, l2 := Lookup(b1, PredictedClass), Lookup(b2, PredictedClass);
      if l1.Some? && l2.None? {
        assert false;
      } else if l1.None? && l2.Some? {
        assert false;
      } else if l1.Some? {
        assert k1[0] == k2[0] && k1[1..] == k2[1..];
      }
    }
  }

  /** Changing the value of any one property of a request body changes its key. */
  lemma CacheKeySeesEveryField(body: seq<Member>, i: nat, v: Value)
    requires DistinctNames(body) && i < |body| && body[i].value != v
    ensures CacheKey(body) != CacheKey(body[i := Member(body[i].name, v)])
  {
    var body' := body[i := Member(body[i].name, v)];
    CacheKeyInjective(body, body');
    UpdateIsVisible(body, i, v);
  }

  lemma UpdateIsVisible(body: seq<Member>, i: nat, v: Value)
    requires DistinctNames(body) && i < |body| && body[i].value != v
    ensures var body' := body[i := Member(body[i].name, v)];
      Lookup(body, PredictedClass) != Lookup(body', PredictedClass) || Without(body, PredictedClass) != Without(body', PredictedClass)
  {
    var body' := body[i := Member(body[i].name, v)];
    var n := body[i].name;
    if n == PredictedClass {
      LookupInDistinct(body, i);
      LookupFindsFirst(body', i);
    } else {
      assert body'[i] == Member(n, v);
      assert Member(n, v) in Without(body', PredictedClass);
      if Without(body, PredictedClass) == Without(body', PredictedClass) {
        NameIsUnique(body, i, Member(n, v));
        assert false;
      }
    }
  }

  lemma NameIsUnique(ms: seq<Member>, i: nat, m: Member)
    requires DistinctNames(ms) && i < |ms| && m in ms && m.name == ms[i].name
    ensures m == ms[i]
  {
  }

  lemma LookupInDistinct(ms: seq<Member>, i: nat)
    requires DistinctNames(ms) && i < |ms|
    ensures Lookup(ms, ms[i].name) == Some(ms[i].value)
  {
    LookupFindsFirst(ms, i);
  }

  lemma {:induction false} LookupFindsFirst(ms: seq<Member>, i: nat)
    requires i < |ms|
    requires forall j :: 0 <= j < i ==> ms[j].name != ms[i].name
    ensures Lookup(ms, ms[i].name) == Some(ms[i].value)
  {
    if i > 0 {
      LookupFindsFirst(ms[1..], i - 1);
    }
  }

  /** The key follows property order: two class-less bodies share a key only
      when they list the same properties in the same order, so the same
      profile sent with its fields reordered is a different cache entry. */
  lemma CacheKeyIsOrderSensitive(b1: seq<Member>, b2: seq<Member>)
    requires Lookup(b1, PredictedClass).None? && Lookup(b2, PredictedClass).None?
    ensures CacheKey(b1) == CacheKey(b2) <==> b1 == b2
  {
    CacheKeyInjective(b1, b2);
    WithoutAbsent(b1, PredictedClass);
    WithoutAbsent(b2, PredictedClass);
  }

  lemma {:induction false} WithoutAbsent(ms: seq<Member>, name: string)
    requires Lookup(ms, name).None?
    ensures Without(ms, name) == ms
  {
    if ms != [] {
      WithoutAbsent(ms[1..], name);
      assert ms == [ms[0]] + ms[1..];
    }
  }

  // ---------------------------------------------------------------- prompt

  /** One profile line of the template: `- <caption>: <prefix>${value}<suffix>`,
      or, for the two flags, `Yes` / `No`. */
  datatype ProfileField = Plain(name: string, caption: string, prefix: string, suffix: string)
                        | Flag(name: string, caption: string)

  /** The sixteen profile lines, in template order. */
  function ProfileFields(): seq<ProfileField>
  {
    seq(16, k requires 0 <= k < 16 => ProfileFieldAt(k))
  }

  function ProfileFieldAt(k: nat): ProfileField
    requires k < 16
  {
    if k == 0 then Plain("NETMONTHLYINCOME", "Monthly Income", "\U{20B9}", "")
    else if k == 1 then Plain("AGE", "Age", "", "")
    else if k == 2 then Plain("Time_With_Curr_Empr", "Time with Current Employer", "", " months")
    else if k == 3 then Plain("CC_utilization", "Credit Card Utilization", "", "%")
    else if k == 4 then Plain("PL_utilization", "Personal Loan Utilization", "", "%")
    else if k == 5 then Plain("enq_L6m", "Recent Credit Inquiries (6 months)", "", "")
    else if k == 6 then Plain("tot_enq", "Total Credit Inquiries (12 months)", "", "")
    else if k == 7 then Plain("num_deliq_12mts", "Delinquencies (last 12 months)", "", "")
    else if k == 8 then Plain("max_delinquency_level", "Max Delinquency Level", "", "")
    else if k == 9 then Plain("num_std", "Number of Standard Loans", "", "")
    else if k == 10 then Flag("CC_Flag", "Credit Card Active")
    else if k == 11 then Flag("PL_Flag", "Personal Loan Active")
    else if k == 12 then Plain("MARITALSTATUS", "Marital Status", "", "")
    else if k == 13 then Plain("EDUCATION", "Education", "", "")
    else if k == 14 then Plain("GENDER", "Gender", "", "")
    else Plain("Credit_Score", "Credit Score", "", "")
  }

  const Indent := "      "

  /** Template-literal interpolation `${x}` of a property value. */
  function Show(v: Option<Value>): string
  {
    match v
    case None => "undefined"
    case Some(Null) => "null"
    case Some(Bool(b)) => if b then "true" else "false"
    case Some(Num(n)) => NumberText(n)
    case Some(Str(s)) => s
  }

  /** `x === "1" ? "Yes" : "No"`: strict equality, so only the string "1". */
  function FlagText(v: Option<Value>): string
  {
    if v == Some(Str("1")) then "Yes" else "No"
  }

  function FieldLine(f: ProfileField, userInputs: seq<Member>): string
  {
    var shown := match f
      case Plain(name, _, prefix, suffix) => prefix + Show(Lookup(userInputs, name)) + suffix
      case Flag(name, _) => FlagText(Lookup(userInputs, name));
    Indent + "- " + f.caption + ": " + shown
  }

  function FieldLines(fs: seq<ProfileField>, userInputs: seq<Member>): (lines: seq<string>)
    ensures |lines| == |fs|
    ensures forall i :: 0 <= i < |fs| ==> lines[i] == FieldLine(fs[i], userInputs)
  {
    seq(|fs|, i requires 0 <= i < |fs| => FieldLine(fs[i], userInputs))
  }

  /** The nine lines after the profile: the instructions, then the closing
      indentation of the template literal. */
  function Instructions(): seq<string>
  {
    seq(9, k requires 0 <= k < 9 => InstructionLine(k))
  }

  function InstructionLine(k: nat): string
    requires k < 9
  {
    if k == 1 then Indent + "Provide recommendations to:"
    else if k == 2 then Indent + "1. Improve the user's credit score."
    else if k == 3 then Indent + "2. Enhance the user's financial health."
    else if k == 5 then Indent + "Format the recommendations in a clear and concise manner, using bullet points or numbered lists where appropriate. Avoid jargon and ensure the recommendations are actionable and easy to understand."
    else if k == 6 then Indent + "Be specific and provide examples where possible. The recommendations should be tailored to the user's financial profile and the predicted credit class."
    else if k == 7 then Indent + "Avoid generic advice and focus on practical steps the user can take to improve their creditworthiness and financial situation."
    else if k == 8 then "    "
    else ""
  }

  /** The template's lines: a blank first line (the literal opens with a
      newline), the introduction, the class, the sixteen profile lines, the
      instructions, and the closing indentation. */
  function PromptLines(predictedClass: Option<Value>, userInputs: seq<Member>): seq<string>
  {
    Heading(predictedClass) + FieldLines(ProfileFields(), userInputs) + Instructions()
  }

  /** The five lines before the profile; the fourth names the class. */
  function Heading(predictedClass: Option<Value>): (h: seq<string>)
    ensures |h| == 5 && h[3] == ClassLine(predictedClass)
  {
    seq(5, k requires 0 <= k < 5 => HeadingLine(k, predictedClass))
  }

  function HeadingLine(k: nat, predictedClass: Option<Value>): string
    requires k < 5
  {
    if k == 1 then Indent + "Based on the following financial profile and predicted credit class, provide actionable recommendations to improve the user's credit score and financial health:"
    else if k == 3 then ClassLine(predictedClass)
    else if k == 4 then Indent + "User Inputs:"
    else ""
  }

  function ClassLine(predictedClass: Option<Value>): string
  {
    Indent + "Predicted Credit Class: " + Show(predictedClass)
  }

  lemma PromptLinesShape(predictedClass: Option<Value>, userInputs: seq<Member>)
    ensures var lines := PromptLines(predictedClass, userInputs);
      |lines| == 30 && lines[3] == ClassLine(predictedClass) &&
      (forall i :: 0 <= i < 16 ==> lines[5 + i] == FieldLine(ProfileFields()[i], userInputs))
  {
    PromptLinesCount(predictedClass, userInputs);
    ClassLineAt(predictedClass, userInputs);
    FieldLinesAt(predictedClass, userInputs);
  }

  lemma PromptLinesCount(predictedClass: Option<Value>, userInputs: seq<Member>)
    ensures |PromptLines(predictedClass, userInputs)| == 30
  {
    assert |Instructions()| == 9;
  }

  lemma ClassLineAt(predictedClass: Option<Value>, userInputs: seq<Member>)
    ensures 3 < |PromptLines(predictedClass, userInputs)|
    ensures PromptLines(predictedClass, userInputs)[3] == ClassLine(predictedClass)
  {
  }

  lemma FieldLinesAt(predictedClass: Option<Value>, userInputs: seq<Member>)
    ensures forall i :: 0 <= i < 16 ==> PromptLines(predictedClass, userInputs)[5 + i] == FieldLine(ProfileFields()[i], userInputs)
  {
    var fl := FieldLines(ProfileFields(), userInputs);
    forall i | 0 <= i < 16
      ensures PromptLines(predictedClass, userInputs)[5 + i] == FieldLine(ProfileFields()[i], userInputs)
    {
      MiddleAt(Heading(predictedClass), fl, Instructions(), i);
    }
  }

  lemma MiddleAt<T>(a: seq<T>, b: seq<T>, c: seq<T>, i: nat)
    requires i < |b|
    ensures (a + b + c)[|a| + i] == b[i]
  {
  }

  /** The prompt sent to the generator. */
  function Prompt(predictedClass: Option<Value>, userInputs: seq<Member>): string
  {
    Join(PromptLines(predictedClass, userInputs), '\n')
  }

  /** The prompt shows the class and every one of the sixteen profile fields:
      each line occurs in the prompt text (`a` is where), lines 5 to 20 in
      field order. */
  lemma PromptEmbedsProfile(predictedClass: Option<Value>, userInputs: seq<Member>, i: nat) returns (a: nat, c: nat)
    requires i < |ProfileFields()|
    ensures var p, line := Prompt(predictedClass, userInputs), FieldLine(ProfileFields()[i], userInputs);
      a + |line| <= |p| && p[a..a + |line|] == line
    ensures var p, line := Prompt(predictedClass, userInputs), ClassLine(predictedClass);
      c + |line| <= |p| && p[c..c + |line|] == line
  {
    a := ProfileLineInPrompt(predictedClass, userInputs, i);
    c := ClassLineInPrompt(predictedClass, userInputs);
  }

  lemma ProfileLineInPrompt(predictedClass: Option<Value>, userInputs: seq<Member>, i: nat) returns (a: nat)
    requires i < |ProfileFields()|
    ensures var p, line := Prompt(predictedClass, userInputs), FieldLine(ProfileFields()[i], userInputs);
      a + |line| <= |p| && p[a..a + |line|] == line
  {
    a := FieldLinesEntryInPrompt(predictedClass, userInputs, i);
    FieldLinesEntry(userInputs, i);
  }

  lemma FieldLinesEntryInPrompt(predictedClass: Option<Value>, userInputs: seq<Member>, i: nat) returns (a: nat)
    requires i < |ProfileFields()|
    ensures var p, line := Prompt(predictedClass, userInputs), FieldLines(ProfileFields(), userInputs)[i];
      a + |line| <= |p| && p[a..a + |line|] == line
  {
    a := LineInJoin(Heading(predictedClass), FieldLines(ProfileFields(), userInputs), Instructions(), i);
  }

  lemma FieldLinesEntry(userInputs: seq<Member>, i: nat)
    requires i < |ProfileFields()|
    ensures FieldLines(ProfileFields(), userInputs)[i] == FieldLine(ProfileFields()[i], userInputs)
  {
  }

  lemma ClassLineInPrompt(predictedClass: Option<Value>, userInputs: seq<Member>) returns (c: nat)
    ensures var p, line := Prompt(predictedClass, userInputs), ClassLine(predictedClass);
      c + |line| <= |p| && p[c..c + |line|] == line
  {
    c := HeadingEntryInPrompt(predictedClass, userInputs, 3);
  }

  lemma HeadingEntryInPrompt(predictedClass: Option<Value>, userInputs: seq<Member>, k: nat) returns (c: nat)
    requires k < 5
    ensures var p, line := Prompt(predictedClass, userInputs), Heading(predictedClass)[k];
      c + |line| <= |p| && p[c..c + |line|] == line
  {
    c := FrontLineInJoin(Heading(predictedClass), FieldLines(ProfileFields(), userInputs), Instructions(), k);
  }

  /** A line in the front part of a newline-joined text occurs in that text. */
  lemma FrontLineInJoin(front: seq<string>, middle: seq<string>, after: seq<string>, i: nat) returns (a: nat)
    requires i < |front|
    ensures var text := Join(front + middle + after, '\n');
      a + |front[i]| <= |text| && text[a..a + |front[i]|] == front[i]
  {
    FrontAt(front, middle, after, i);
    a := JoinPartAt(front + middle + after, '\n', i);
  }

  lemma FrontAt<T>(a: seq<T>, b: seq<T>, c: seq<T>, i: nat)
    requires i < |a|
    ensures (a + b + c)[i] == a[i]
  {
  }

  /** A line in the middle part of a newline-joined text occurs in that text. */
  lemma LineInJoin(before: seq<string>, middle: seq<string>, after: seq<string>, i: nat) returns (a: nat)
    requires i < |middle|
    ensures var text := Join(before + middle + after, '\n');
      a + |middle[i]| <= |text| && text[a..a + |middle[i]|] == middle[i]
  {
    MiddleAt(before, middle, after, i);
    a := JoinPartAt(before + middle + after, '\n', |before| + i);
  }

  /** The instructions are the same for every request: the prompt lines other
      than the class line and the profile lines do not depend on the body. */
  lemma PromptFrameIsFixed(pc1: Option<Value>, in1: seq<Member>, pc2: Option<Value>, in2: seq<Member>, k: nat)
    requires k < |PromptLines(pc1, in1)|
    requires k != 3 && !(5 <= k < 21)
    ensures |PromptLines(pc2, in2)| == |PromptLines(pc1, in1)| == 30
    ensures PromptLines(pc1, in1)[k] == PromptLines(pc2, in2)[k]
  {
  }

  /** Only the class and the sixteen profile fields reach the prompt: bodies
      that agree on those give the same prompt, whatever else they carry
      (while `CacheKeySeesEveryField` gives them different keys). */
  lemma PromptIgnoresOtherFields(pc: Option<Value>, in1: seq<Member>, in2: seq<Member>)
    requires forall f :: f in ProfileFields() ==> Lookup(in1, f.name) == Lookup(in2, f.name)
    ensures Prompt(pc, in1) == Prompt(pc, in2)
  {
    assert FieldLines(ProfileFields(), in1) == FieldLines(ProfileFields(), in2) by {
      forall i | 0 <= i < |ProfileFields()|
        ensures FieldLine(ProfileFields()[i], in1) == FieldLine(ProfileFields()[i], in2)
      {
        assert ProfileFields()[i] in ProfileFields();
      }
    }
  }

  /** A flag line says "Yes" exactly when the flag is the string "1": the
      number 1, "true" or any other value reads "No". */
  lemma FlagLineSaysYesOnlyForStringOne(userInputs: seq<Member>, i: nat)
    requires i < |ProfileFields()| && ProfileFields()[i].Flag?
    ensures FieldLine(ProfileFields()[i], userInputs) == Indent + "- " + ProfileFields()[i].caption + ": Yes"
        <==> Lookup(userInputs, ProfileFields()[i].name) == Some(Str("1"))
    ensures FieldLine(ProfileFields()[i], userInputs) == Indent + "- " + ProfileFields()[i].caption + ": No"
        <==> Lookup(userInputs, ProfileFields()[i].name) != Some(Str("1"))
  {
    var pre := Indent + "- " + ProfileFields()[i].caption + ": ";
    var yes, no := pre + "Yes", pre + "No";
    assert yes != no by {
      assert yes[|pre|] == 'Y' && no[|pre|] == 'N';
    }
  }

  // ---------------------------------------------------------------- the cache

  /** What the generator call (`generateContent` and `response.text()`)
      produced: the text, or a thrown error. */
  datatype Generation = Generated(text: string) | GenerationFailed

  /** The route's reply: `{ recommendations }`, or status 500 with `{ error }`. */
  datatype RecommendReply = Recommendations(text: string) | RecommendFailed(error: string)

  const FailureMessage := "Failed to fetch recommendations"

  /** What the handler derives from a request body before touching the
      cache: the cache key and the prompt a miss would send. */
  datatype Request = Request(key: string, prompt: string)

  function RequestOf(body: seq<Member>): Request
  {
    Request(CacheKey(body), Prompt(Lookup(body, PredictedClass), Without(body, PredictedClass)))
  }

  /** Outcome of one request: the reply, the prompt the generator was called
      with (`None` when it was not called), and the cache afterwards. */
  datatype Served = Served(reply: RecommendReply, prompt: Option<string>, cache: map<string, string>)

  /** One `/recommend` request against the cache. */
  function Serve(cache: map<string, string>, req: Request, generate: string -> Generation): Served
  {
    if req.key in cache then Served(Recommendations(cache[req.key]), None, cache)
    else
      match generate(req.prompt)
      case Generated(text) => Served(Recommendations(Trim(text)), Some(req.prompt), cache[req.key := Trim(text)])
      case GenerationFailed => Served(RecommendFailed(FailureMessage), Some(req.prompt), cache)
  }

  /** The module-level `recommendationsCache` map. */
  class RecommendationCache {
    var entries: map<string, string>

    constructor ()
      ensures entries == map[]
    {
      entries := map[];
    }

    /** The `/recommend` handler: the reply, the generator call and the new
        cache are those of `Serve` on the request's key and prompt, whose
        properties the lemmas below state. */
    method Recommend(body: seq<Member>, generate: string -> Generation) returns (reply: RecommendReply, prompt: Option<string>)
      modifies this
      ensures Served(reply, prompt, entries) == Serve(old(entries), RequestOf(body), generate)
    {
      var req := RequestOf(body);
      if req.key in entries {
        return Recommendations(entries[req.key]), None;
      }
      prompt := Some(req.prompt);
      var outcome := generate(req.prompt);
      match outcome {
        case Generated(text) =>
          var recommendations := Trim(text);
          entries := entries[req.key := recommendations];
          reply := Recommendations(recommendations);
        case GenerationFailed =>
          reply := RecommendFailed(FailureMessage);
      }
    }
  }

  // ------------------------------------------------------- cache properties

  /** A request only ever adds its own key; no entry is changed or removed. */
  lemma ServeOnlyAdds(cache: map<string, string>, req: Request, generate: string -> Generation)
    ensures var after := Serve(cache, req, generate).cache;
      (forall k :: k in cache ==> k in after && after[k] == cache[k]) &&
      (forall k :: k in after && k !in cache ==> k == req.key)
  {
  }

  /** On a hit the stored text comes back unchanged and the generator is not
      called; on a miss it is called with the request's prompt. */
  lemma ServeHitSkipsGenerator(cache: map<string, string>, req: Request, generate: string -> Generation)
    ensures var s := Serve(cache, req, generate);
      (s.prompt.None? <==> req.key in cache) &&
      (s.prompt.Some? ==> s.prompt.value == req.prompt) &&
      (req.key in cache ==> s.reply == Recommendations(cache[req.key]) && s.cache == cache)
  {
  }

  /** A successful miss stores the trimmed text, so the same request again is
      a hit with the same text whatever the generator would now do. */
  lemma RepeatAfterSuccessIsHit(cache: map<string, string>, req: Request, g1: string -> Generation, g2: string -> Generation)
    requires Serve(cache, req, g1).reply.Recommendations?
    ensures var first := Serve(cache, req, g1);
      Serve(first.cache, req, g2) == Served(first.reply, None, first.cache)
  {
  }

  /** A miss answers with the trimmed generated text and stores exactly that. */
  lemma MissStoresTrimmedText(cache: map<string, string>, req: Request, generate: string -> Generation)
    requires req.key !in cache && generate(req.prompt).Generated?
    ensures var s := Serve(cache, req, generate);
      s.reply == Recommendations(Trim(generate(req.prompt).text)) &&
      s.cache == cache[req.key := Trim(generate(req.prompt).text)]
  {
  }

  /** A failed generation caches nothing and answers with the fixed error, so
      the same request again calls the generator again with the same prompt. */
  lemma FailureIsNotCached(cache: map<string, string>, req: Request, g1: string -> Generation, g2: string -> Generation)
    requires Serve(cache, req, g1).reply.RecommendFailed?
    ensures Serve(cache, req, g1).cache == cache
    ensures Serve(cache, req, g1).reply == RecommendFailed(FailureMessage)
    ensures Serve(cache, req, g2).prompt == Some(req.prompt)
  {
  }

  /** A run of requests served one after another: the generator calls made,
      one entry per request, and the final cache. */
  function ServeAll(cache: map<string, string>, reqs: seq<Request>, generate: string -> Generation): (r: (seq<Option<string>>, map<string, string>))
    ensures |r.0| == |reqs|
    decreases |reqs|
  {
    if reqs == [] then ([], cache)
    else
      var first := Serve(cache, reqs[0], generate);
      var rest := ServeAll(first.cache, reqs[1..], generate);
      ([first.prompt] + rest.0, rest.1)
  }

  /** While the generator succeeds on the run's prompts, every distinct key reaches it at most
      once: two requests of a run that both called it have different keys,
      and neither key was cached before the run. */
  lemma AtMostOneGenerationPerKey(cache: map<string, string>, reqs: seq<Request>, generate: string -> Generation)
    requires forall i :: 0 <= i < |reqs| ==> generate(reqs[i].prompt).Generated?
    ensures var calls := ServeAll(cache, reqs, generate).0;
      forall i :: 0 <= i < |reqs| && calls[i].Some? ==> reqs[i].key !in cache
    ensures var calls := ServeAll(cache, reqs, generate).0;
      forall i, j :: 0 <= i < j < |reqs| && calls[i].Some? && calls[j].Some? ==> reqs[i].key != reqs[j].key
  {
    CalledKeysWereUncached(cache, reqs, generate);
    CalledKeysDistinct(cache, reqs, generate);
  }

  /** Whatever the generator does, a request of a run reaches it only when its
      key was not cached before the run. */
  lemma {:induction false} CalledKeysWereUncached(cache: map<string, string>, reqs: seq<Request>, generate: string -> Generation)
    ensures var calls := ServeAll(cache, reqs, generate).0;
      forall i :: 0 <= i < |reqs| && calls[i].Some? ==> reqs[i].key !in cache
    decreases |reqs|
  {
    if reqs != [] {
      var first := Serve(cache, reqs[0], generate);
      var calls := ServeAll(cache, reqs, generate).0;
      var rest := ServeAll(first.cache, reqs[1..], generate).0;
      CalledKeysWereUncached(first.cache, reqs[1..], generate);
      ServeOnlyAdds(cache, reqs[0], generate);
      ServeAllStep(cache, reqs, generate);
      forall i | 0 < i < |reqs| && calls[i].Some?
        ensures reqs[i].key !in cache
      {
        assert rest[i - 1].Some? && reqs[1..][i - 1] == reqs[i];
      }
    }
  }

  lemma {:induction false} CalledKeysDistinct(cache: map<string, string>, reqs: seq<Request>, generate: string -> Generation)
    requires forall i :: 0 <= i < |reqs| ==> generate(reqs[i].prompt).Generated?
    ensures var calls := ServeAll(cache, reqs, generate).0;
      forall i, j :: 0 <= i < j < |reqs| && calls[i].Some? && calls[j].Some? ==> reqs[i].key != reqs[j].key
    decreases |reqs|
  {
    if reqs != [] {
      var first := Serve(cache, reqs[0], generate);
      var calls := ServeAll(cache, reqs, generate).0;
      var rest := ServeAll(first.cache, reqs[1..], generate).0;
      assert forall i :: 0 <= i < |reqs| - 1 ==> reqs[1..][i] == reqs[i + 1];
      CalledKeysDistinct(first.cache, reqs[1..], generate);
      FirstKeyNotCalledAgain(cache, reqs, generate);
      ServeAllStep(cache, reqs, generate);
      forall i, j | 0 < i < j < |reqs| && calls[i].Some? && calls[j].Some?
        ensures reqs[i].key != reqs[j].key
      {
        assert rest[j - 1].Some? && reqs[1..][j - 1] == reqs[j];
        assert rest[i - 1].Some? && reqs[1..][i - 1] == reqs[i];
      }
    }
  }

  /** A successful first request caches its key, so no later request of the
      run calls the generator with that key. */
  lemma FirstKeyNotCalledAgain(cache: map<string, string>, reqs: seq<Request>, generate: string -> Generation)
    requires forall i :: 0 <= i < |reqs| ==> generate(reqs[i].prompt).Generated?
    requires reqs != []
    ensures var calls := ServeAll(cache, reqs, generate).0;
      forall j :: 0 < j < |reqs| && calls[j].Some? ==> reqs[0].key != reqs[j].key
  {
    var first := Serve(cache, reqs[0], generate);
    var calls := ServeAll(cache, reqs, generate).0;
    var rest := ServeAll(first.cache, reqs[1..], generate).0;
    CalledKeysWereUncached(first.cache, reqs[1..], generate);
    ServeAllStep(cache, reqs, generate);
    assert reqs[0].key in first.cache;
    forall j | 0 < j < |reqs| && calls[j].Some?
      ensures reqs[0].key != reqs[j].key
    {
      assert rest[j - 1].Some? && reqs[1..][j - 1] == reqs[j];
    }
  }

  lemma ServeAllStep(cache: map<string, string>, reqs: seq<Request>, generate: string -> Generation)
    requires reqs != []
    ensures var first := Serve(cache, reqs[0], generate);
      ServeAll(cache, reqs, generate).0 == [first.prompt] + ServeAll(first.cache, reqs[1..], generate).0
  {
  }
}
