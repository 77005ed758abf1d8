/** The classifier script `Backend/ML/predict.py`: it reads one JSON object
    from standard input, builds a one-row frame, coerces the numeric fields,
    one-hot encodes the three categorical fields, aligns the frame to the
    sixteen selected columns, asks the trained model for a class index and
    prints its label. The model, the numeric coercion and the dummy columns are
    parameters; the frame's single row is a map from column name to value. */
module Classifier {
  import opened Text
  import opened Json

  /** The sixteen columns the model was trained on, in training order. */
  const SelectedColumns: seq<string> := [
    "NETMONTHLYINCOME", "AGE", "Time_With_Curr_Empr", "CC_utilization",
    "PL_utilization", "enq_L6m", "tot_enq", "num_deliq_12mts",
    "max_delinquency_level", "num_std", "CC_Flag", "PL_Flag",
    "MARITALSTATUS", "EDUCATION", "GENDER", "Credit_Score"
  ]

  /** The thirteen columns passed through `pd.to_numeric`. */
  const NumericFields: seq<string> := [
    "NETMONTHLYINCOME", "AGE", "Time_With_Curr_Empr", "CC_utilization",
    "PL_utilization", "enq_L6m", "tot_enq", "num_deliq_12mts",
    "max_delinquency_level", "num_std", "CC_Flag", "PL_Flag", "Credit_Score"
  ]

  /** The three columns given to `pd.get_dummies`. */
  const Categorical: seq<string> := ["MARITALSTATUS", "EDUCATION", "GENDER"]

  /** The one row of the frame: column name to cell. */
  type Frame = map<string, Value>

  /** `pd.DataFrame([json.loads(...)])`: one column per member; a repeated
      name keeps its last value, as `json.loads` does. */
  function FrameOf(ms: seq<Member>): (f: Frame)
    ensures f.Keys == set m | m in ms :: m.name
    ensures forall i :: 0 <= i < |ms| && LastOfName(ms, i) ==> f[ms[i].name] == ms[i].value
  {
    if ms == [] then map[]
    else
      var last := ms[|ms| - 1];
      var f := FrameOf(ms[..|ms| - 1]);
      assert ms == ms[..|ms| - 1] + [last];
      assert forall i :: 0 <= i < |ms| - 1 && LastOfName(ms, i) ==> LastOfName(ms[..|ms| - 1], i);
      f[last.name := last.value]
  }

  /** No later member has the name of member `i`. */
  predicate LastOfName(ms: seq<Member>, i: nat)
    requires i < |ms|
  {
    forall j :: i < j < |ms| ==> ms[j].name != ms[i].name
  }

  /** `df[numeric_fields] = df[numeric_fields].apply(pd.to_numeric, ...)`:
      every numeric column goes through `coerce`, the others are kept. */
  function Coerced(f: Frame, coerce: Value -> Value): (g: Frame)
    requires forall c :: c in NumericFields ==> c in f
    ensures g.Keys == f.Keys
    ensures forall c :: c in g ==> g[c] == (if c in NumericFields then coerce(f[c]) else f[c])
  {
    map c | c in f :: if c in NumericFields then coerce(f[c]) else f[c]
  }

  /** The coercion is the only thing that changes a cell: with a coercion
      that changes nothing, the frame is unchanged. */
  lemma CoercedByIdentity(f: Frame, coerce: Value -> Value)
    requires forall c :: c in NumericFields ==> c in f
    requires forall v :: coerce(v) == v
    ensures Coerced(f, coerce) == f
  {
  }

  /** `pd.to_numeric` leaves a number as it is, so running the conversion on
      an already converted frame changes nothing. */
  lemma CoercedIdempotent(f: Frame, coerce: Value -> Value)
    requires forall c :: c in NumericFields ==> c in f
    requires forall v :: coerce(coerce(v)) == coerce(v)
    ensures Coerced(Coerced(f, coerce), coerce) == Coerced(f, coerce)
  {
  }

  /** The non-numeric columns do not depend on the coercion at all. */
  lemma CoercionSparesOtherColumns(f: Frame, coerce1: Value -> Value, coerce2: Value -> Value, c: string)
    requires forall c :: c in NumericFields ==> c in f
    requires c in f && c !in NumericFields
    ensures Coerced(f, coerce1)[c] == Coerced(f, coerce2)[c] == f[c]
  {
  }

  /** A column `get_dummies` creates: the categorical column's name, `_`, a category. */
  predicate IsDummyName(name: string) {
    exists i :: 0 <= i < |Categorical| && IsDummyOf(name, Categorical[i])
  }

  predicate IsDummyOf(name: string, column: string) {
    |column| < |name| && name[..|column|] == column && name[|column|] == '_'
  }

  /** The effect of `pd.get_dummies(df, columns=Categorical, drop_first=True)`:
      the three categorical columns are removed and the dummy columns added. */
  function Encoded(f: Frame, dummies: Frame): (g: Frame)
    requires forall d :: d in dummies ==> IsDummyName(d)
    ensures forall c :: c in Categorical ==> c !in g
  {
    assert forall c :: c in Categorical ==> c !in dummies by {
      forall c | c in Categorical
        ensures c !in dummies
      {
        NoSelectedColumnIsDummy(c);
      }
    }
    (f - set c | c in Categorical) + dummies
  }

  /** The value a selected column holds after the alignment loop. */
  function AlignedValue(f: Frame, column: string): Value
  {
    if column in f then f[column] else Num(0)
  }

  /** `df[selected_columns]` after the loop: the row in column order. */
  function Aligned(f: Frame): (row: seq<Value>)
    ensures |row| == |SelectedColumns|
  {
    seq(|SelectedColumns|, i requires 0 <= i < |SelectedColumns| => AlignedValue(f, SelectedColumns[i]))
  }

  /** The alignment loop and the projection (`predict.py` lines 40-43): every
      missing selected column is added as 0, then the frame is cut down to
      the selected columns in their order. */
  method Align(frame: Frame) returns (columns: seq<string>, row: seq<Value>)
    ensures columns == SelectedColumns && |row| == |columns|
    ensures forall i :: 0 <= i < |columns| ==>
      (columns[i] in frame ==> row[i] == frame[columns[i]]) &&
      (columns[i] !in frame ==> row[i] == Num(0))
    ensures row == Aligned(frame)
  {
    var df := frame;
    for i := 0 to |SelectedColumns|
      invariant forall c :: c in frame ==> c in df && df[c] == frame[c]
      invariant forall c :: c in df && c !in frame ==> df[c] == Num(0)
      invariant forall j :: 0 <= j < i ==> SelectedColumns[j] in df && df[SelectedColumns[j]] == AlignedValue(frame, SelectedColumns[j])
    {
      var col := SelectedColumns[i];
      if col !in df {
        df := df[col := Num(0)];
      }
    }
    columns := SelectedColumns;
    row := [];
    for i := 0 to |columns|
      invariant |row| == i
      invariant forall j :: 0 <= j < i ==> row[j] == AlignedValue(frame, columns[j])
    {
      row := row + [df[columns[i]]];
    }
  }

  /** `class_map.get(prediction, "Unknown")`. */
  function ClassLabel(prediction: int): string
  {
    if prediction == 0 then "P1"
    else if prediction == 1 then "P2"
    else if prediction == 2 then "P3"
    else if prediction == 3 then "P4"
    else "Unknown"
  }

  /** What the process leaves behind: its exit status and its standard output
      (the diagnostics on standard error are not modelled). */
  datatype Exit = Exit(code: int, stdout: string)

  /** The columns both `df[numeric_fields]` and `get_dummies` require; a missing
      one raises an uncaught `KeyError`. */
  predicate HasRequiredColumns(f: Frame) {
    (forall c :: c in NumericFields ==> c in f) && (forall c :: c in Categorical ==> c in f)
  }

  /** The frame the model sees, from a parsed input object. */
  function ModelInput(f: Frame, coerce: Value -> Value, dummies: Frame): seq<Value>
    requires HasRequiredColumns(f)
    requires forall d :: d in dummies ==> IsDummyName(d)
  {
    Aligned(Encoded(Coerced(f, coerce), dummies))
  }

  /** One run of the script. `input` is what `json.loads` produced (`None`
      when it raised), `predict` is `model.predict(df)[0]` (`None` when it
      raised). */
  method Run(input: Option<seq<Member>>, coerce: Value -> Value, dummies: Frame, predict: seq<Value> -> Option<int>)
    returns (exit: Exit)
    requires forall d :: d in dummies ==> IsDummyName(d)
    ensures exit.code == 0 || exit.code == 1
    ensures exit.code == 1 ==> exit.stdout == ""
    ensures input.None? ==> exit == Exit(1, "")
    ensures input.Some? && !HasRequiredColumns(FrameOf(input.value)) ==> exit == Exit(1, "")
    ensures exit.code == 0 <==>
      input.Some? && HasRequiredColumns(FrameOf(input.value)) &&
      predict(ModelInput(FrameOf(input.value), coerce, dummies)).Some?
    ensures exit.code == 0 ==>
      exit.stdout == ClassLabel(predict(ModelInput(FrameOf(input.value), coerce, dummies)).value) + "\n"
  {
    if input.None? {
      return Exit(1, "");
    }
    var df := FrameOf(input.value);
    if !HasRequiredColumns(df) {
      return Exit(1, "");
    }
    df := Coerced(df, coerce);
    df := Encoded(df, dummies);
    var columns, row := Align(df);
    var prediction := predict(row);
    if prediction.None? {
      return Exit(1, "");
    }
    var predictedClass := ClassLabel(prediction.value);
    exit := Exit(0, predictedClass + "\n");
  }

  // -------------------------------------------------------------- properties

  /** The label map: 0 to 3 give P1 to P4, everything else is "Unknown". */
  lemma ClassLabelMap(k: int)
    ensures 0 <= k <= 3 ==> ClassLabel(k) == ['P', DigitChar(k + 1)]
    ensures ClassLabel(k) == "Unknown" <==> !(0 <= k <= 3)
  {
  }

  /** Distinct classes get distinct labels. */
  lemma ClassLabelInjective(k1: int, k2: int)
    requires 0 <= k1 <= 3 && 0 <= k2 <= 3
    ensures ClassLabel(k1) == ClassLabel(k2) <==> k1 == k2
  {
    ClassLabelMap(k1);
    ClassLabelMap(k2);
    if ClassLabel(k1) == ClassLabel(k2) {
      assert DigitChar(k1 + 1) == ClassLabel(k1)[1];
    }
  }

  /** A label never contains whitespace, so the label line survives the
      caller's `trim` intact. */
  lemma ClassLabelHasNoSpace(k: int)
    ensures ClassLabel(k) != [] && !IsSpace(ClassLabel(k)[0]) && !IsSpace(ClassLabel(k)[|ClassLabel(k)| - 1])
  {
  }

  /** Alignment keeps every selected column that is present and fills the
      others with 0; nothing outside the selection reaches the model. */
  lemma AlignedDependsOnlyOnSelected(f1: Frame, f2: Frame)
    requires forall c :: c in SelectedColumns ==> (c in f1 <==> c in f2)
    requires forall c :: c in SelectedColumns && c in f1 ==> f1[c] == f2[c]
    ensures Aligned(f1) == Aligned(f2)
  {
    forall i | 0 <= i < |SelectedColumns|
      ensures Aligned(f1)[i] == Aligned(f2)[i]
    {
      assert SelectedColumns[i] in SelectedColumns;
    }
  }

  /** The aligned row names every selected column once: the sixteen are distinct. */
  lemma SelectedColumnsDistinct()
    ensures forall i, j :: 0 <= i < j < |SelectedColumns| ==> SelectedColumns[i] != SelectedColumns[j]
  {
  }

  /** No selected column is a dummy column. */
  lemma {:induction false} NoSelectedColumnIsDummy(c: string)
    requires c in SelectedColumns || c in Categorical
    ensures !IsDummyName(c)
  {
    forall i | 0 <= i < |Categorical|
      ensures !IsDummyOf(c, Categorical[i])
    {
      var col := Categorical[i];
      if IsDummyOf(c, col) {
        DummyNotSelected(c, col);
        assert false;
      }
    }
  }

  lemma DummyNotSelected(c: string, col: string)
    requires (c in SelectedColumns || c in Categorical) && col in Categorical
    ensures !IsDummyOf(c, col)
  {
    assert c[0] != col[0] || |c| <= |col|;
  }

  /** `get_dummies` replaces the three categorical columns, so the alignment
      always re-adds them as 0, and it drops every dummy column: whatever
      dummies are created, the model sees the same row, with 0 in the
      categorical positions and the coerced frame's values elsewhere. */
  lemma CategoricalsReachModelAsZero(f: Frame, dummies: Frame, i: nat)
    requires forall d :: d in dummies ==> IsDummyName(d)
    requires i < |SelectedColumns|
    ensures var row := Aligned(Encoded(f, dummies));
      (SelectedColumns[i] in Categorical ==> row[i] == Num(0)) &&
      (SelectedColumns[i] !in Categorical ==> row[i] == AlignedValue(f, SelectedColumns[i]))
  {
    var c := SelectedColumns[i];
    if c in dummies {
      NoSelectedColumnIsDummy(c);
      assert false;
    }
  }

  /** The dummy columns never reach the model. */
  lemma DummiesAreDropped(f: Frame, d1: Frame, d2: Frame)
    requires forall d :: d in d1 ==> IsDummyName(d)
    requires forall d :: d in d2 ==> IsDummyName(d)
    ensures Aligned(Encoded(f, d1)) == Aligned(Encoded(f, d2))
  {
    forall i | 0 <= i < |SelectedColumns|
      ensures Aligned(Encoded(f, d1))[i] == Aligned(Encoded(f, d2))[i]
    {
      CategoricalsReachModelAsZero(f, d1, i);
      CategoricalsReachModelAsZero(f, d2, i);
    }
  }
}
