/** The value-level decisions of the inspection report generator
    (python_backend/excel_generator_advanced.py): how a machine model string is
    split into a name and a model code, which law is cited in A3/A4, the title of
    row 5, and how a day's `is_good` value becomes a mark. */
module ReportRules {
  import opened Common

  // ---------------------------------------------------------------------------
  // Splitting "name（model）".
  // ---------------------------------------------------------------------------

  const FullOpen: char := '（'
  const FullClose: char := '）'

  /** Python's `s[a:b]` for 0 <= a <= |s| + 1 and 0 <= b <= |s|: empty when a >= b. */
  function Slice(s: string, a: nat, b: nat): (r: string)
    requires a <= |s| + 1 && b <= |s|
    ensures a < b ==> r == s[a..b]
    ensures b <= a ==> r == ""
  {
    if a < b then s[a..b] else ""
  }

  /** The text between the first opening and the first closing bracket, full-width
      brackets taking precedence when both of them occur; "" otherwise, and ""
      when the first closing bracket comes before the first opening one. */
  function ModelSpec(model: string): (spec: string)
    ensures FullOpen in model && FullClose in model ==>
      var i, j := IndexOf(model, FullOpen).value, IndexOf(model, FullClose).value;
      (i < j ==> spec == model[i + 1..j]) && (j < i ==> spec == "")
    ensures !(FullOpen in model && FullClose in model) && '(' in model && ')' in model ==>
      var i, j := IndexOf(model, '(').value, IndexOf(model, ')').value;
      (i < j ==> spec == model[i + 1..j]) && (j < i ==> spec == "")
    ensures (FullOpen !in model || FullClose !in model) && ('(' !in model || ')' !in model) ==> spec == ""
    ensures FullOpen in model && FullClose in model ==> FullClose !in spec
    ensures |spec| <= |model|
  {
    if FullOpen in model && FullClose in model then
      Slice(model, IndexOf(model, FullOpen).value + 1, IndexOf(model, FullClose).value)
    else if '(' in model && ')' in model then
      Slice(model, IndexOf(model, '(').value + 1, IndexOf(model, ')').value)
    else ""
  }

  /** The machine name: everything before the first opening bracket, full-width
      first. The result is a prefix that stops exactly at that bracket. */
  function MachineName(t: string): (name: string)
    ensures |name| <= |t| && name == t[..|name|]
    ensures FullOpen !in name
    ensures FullOpen !in t ==> '(' !in name
    ensures FullOpen !in t && '(' !in t ==> name == t
    ensures |name| < |t| ==> t[|name|] == (if FullOpen in t then FullOpen else '(')
  {
    match IndexOf(t, FullOpen)
    case Some(i) => t[..i]
    case None =>
      match IndexOf(t, '(')
      case Some(i) => t[..i]
      case None => t
  }

  predicate NoBrackets(s: string) {
    FullOpen !in s && FullClose !in s && '(' !in s && ')' !in s
  }

  /** "name（model）" splits back into its two parts, with either kind of bracket. */
  lemma {:induction false} SplitComposedModel(name: string, spec: string)
    requires NoBrackets(name) && NoBrackets(spec)
    ensures ModelSpec(name + [FullOpen] + spec + [FullClose]) == spec
    ensures MachineName(name + [FullOpen] + spec + [FullClose]) == name
    ensures ModelSpec(name + "(" + spec + ")") == spec
    ensures MachineName(name + "(" + spec + ")") == name
  {
    SplitFullWidth(name, spec);
    SplitHalfWidth(name, spec);
  }

  lemma SplitFullWidth(name: string, spec: string)
    requires NoBrackets(name) && NoBrackets(spec)
    ensures ModelSpec(name + [FullOpen] + spec + [FullClose]) == spec
    ensures MachineName(name + [FullOpen] + spec + [FullClose]) == name
  {
    var f := name + [FullOpen] + spec + [FullClose];
    assert f[|name|] == FullOpen && f[|name| + 1 + |spec|] == FullClose;
    assert f[..|name|] == name && f[|name| + 1..|name| + 1 + |spec|] == spec;
    assert f[..|name| + 1 + |spec|] == name + [FullOpen] + spec;
    IndexOfFirst(f, FullOpen, |name|);
    IndexOfFirst(f, FullClose, |name| + 1 + |spec|);
  }

  lemma SplitHalfWidth(name: string, spec: string)
    requires NoBrackets(name) && NoBrackets(spec)
    ensures ModelSpec(name + "(" + spec + ")") == spec
    ensures MachineName(name + "(" + spec + ")") == name
  {
    var h := name + "(" + spec + ")";
    assert h[|name|] == '(' && h[|name| + 1 + |spec|] == ')';
    assert h[..|name|] == name && h[|name| + 1..|name| + 1 + |spec|] == spec;
    assert h[..|name| + 1 + |spec|] == name + "(" + spec;
    assert FullOpen !in h by {
      assert h == name + ['('] + spec + [')'];
    }
    IndexOfFirst(h, '(', |name|);
    IndexOfFirst(h, ')', |name| + 1 + |spec|);
  }

  lemma IndexOfFirst(s: string, c: char, i: nat)
    requires i < |s| && s[i] == c && c !in s[..i]
    ensures IndexOf(s, c) == Some(i)
  {
  }

  // ---------------------------------------------------------------------------
  // The law cited in A3 and A4.
  // ---------------------------------------------------------------------------

  const CraneRule := "　【ｸﾚｰﾝ則第７８条】"
  const SafetyActRule := "　【労働安全衛生法第２０条】"
  const SafetyRegulationRule := "　【安衛則第１７０条】"

  predicate IsExcavator(machineType: string) {
    Contains(machineType, "油圧ショベル") || Contains(machineType, "油圧ｼｮﾍﾞﾙ")
  }

  predicate IsHandGuided(machineType: string) {
    Contains(machineType, "ハンドガイド式")
  }

  /** The text of A3. */
  function Row3Citation(machineType: string): (c: string)
    ensures IsExcavator(machineType) <==> c == CraneRule
    ensures !IsExcavator(machineType) && IsHandGuided(machineType) <==> c == SafetyActRule
    ensures !IsExcavator(machineType) && !IsHandGuided(machineType) <==> c == SafetyRegulationRule
  {
    if IsExcavator(machineType) then CraneRule
    else if IsHandGuided(machineType) then SafetyActRule
    else SafetyRegulationRule
  }

  /** The text of A4, written for excavators only. */
  function Row4Citation(machineType: string): (c: Option<string>)
    ensures c.Some? <==> IsExcavator(machineType)
    ensures c.Some? ==> c.value == SafetyRegulationRule
  {
    if IsExcavator(machineType) then Some(SafetyRegulationRule) else None
  }

  /** A4 is filled exactly when A3 cites the crane rule, and then cites what A3
      cites for every type that is neither an excavator nor hand-guided. */
  lemma Row4FollowsRow3(machineType: string)
    ensures Row4Citation(machineType).Some? <==> Row3Citation(machineType) == CraneRule
    ensures Row4Citation(machineType).Some? ==> Row4Citation(machineType).value == Row3Citation("")
  {
    assert !Contains("", "油圧ショベル") && !Contains("", "油圧ｼｮﾍﾞﾙ") && !Contains("", "ハンドガイド式");
  }

  // ---------------------------------------------------------------------------
  // The title of row 5.
  // ---------------------------------------------------------------------------

  const TitleSuffix := "　作業開始前点検表"

  /** The month, the machine name without its model code, and a fixed suffix. */
  function Title(month: int, machineType: string): string {
    IntToString(month) + "月度　" + MachineName(machineType) + TitleSuffix
  }

  /** The model code in brackets never reaches the title. */
  lemma TitleDropsModel(month: int, name: string, spec: string)
    requires NoBrackets(name) && NoBrackets(spec)
    ensures Title(month, name + [FullOpen] + spec + [FullClose]) == Title(month, name)
    ensures Title(month, name + "(" + spec + ")") == Title(month, name)
  {
    SplitComposedModel(name, spec);
  }

  // ---------------------------------------------------------------------------
  // A day's result: `is_good` compared with Python's `==`.
  // ---------------------------------------------------------------------------

  /** The JSON values a client sends as `is_good`, as `json.loads` gives them:
      a number with a fraction or an exponent is a float, an array a list, an
      object a dict (only their sizes matter here). JNull also stands for a
      missing key, which `dict.get` returns as None. */
  datatype JsonValue = JBool(b: bool) | JInt(i: int) | JFloat(r: real) | JStr(s: string) | JNull
                     | JList(size: nat) | JObject(size: nat)

  /** Python's `v == b` for a bool b: True, 1 and 1.0 are equal in Python. */
  predicate EqualsBool(v: JsonValue, b: bool) {
    match v
    case JBool(x) => x == b
    case JInt(i) => i == (if b then 1 else 0)
    case JFloat(r) => r == (if b then 1.0 else 0.0)
    case _ => false
  }

  /** Python's `v == s` for a str s. */
  predicate EqualsStr(v: JsonValue, s: string) {
    v.JStr? && v.s == s
  }

  /** Python's `v == n` for an int n. */
  predicate EqualsInt(v: JsonValue, n: int) {
    match v
    case JBool(x) => n == (if x then 1 else 0)
    case JInt(i) => i == n
    case JFloat(r) => r == n as real
    case _ => false
  }

  datatype Mark = Pass | Fail | Unmarked

  /** The chain of comparisons that chooses the mark of a day. */
  function Classify(v: JsonValue): Mark {
    if EqualsBool(v, true) || EqualsStr(v, "true") || EqualsInt(v, 1) || EqualsStr(v, "1") then Pass
    else if EqualsBool(v, false) || EqualsStr(v, "false") || EqualsInt(v, 0) || EqualsStr(v, "0") then Fail
    else Unmarked
  }

  /** Exactly five values count as good and five as bad; everything else,
      None, lists and objects included, leaves the mark unset. */
  lemma ClassifyValues(v: JsonValue)
    ensures Classify(v) == Pass <==> v in [JBool(true), JInt(1), JFloat(1.0), JStr("true"), JStr("1")]
    ensures Classify(v) == Fail <==> v in [JBool(false), JInt(0), JFloat(0.0), JStr("false"), JStr("0")]
  {
  }

  const PassMark := "⚪"
  const FailMark := "×"
}
