/** How `generate_item_id` (scripts/firestore_import.py) turns the label of an
    inspection item into a snake-case id: separators become underscores, a
    table of Japanese words is replaced by English words in order, the
    remaining Japanese characters are dropped, and the result is tidied. */
module ItemIds {
  import opened Common

  // ---------------------------------------------------------------------------
  // Item ids.
  // ---------------------------------------------------------------------------

  /** The romanisation table, in the order in which its entries are applied,
      written in groups so that the entries for 水 and 油 and the later entries
      for 水温 and 油温 can be named. */
  const Replacements: seq<(string, string)> :=
    ReplacementGroup1 + ReplacementGroup2 + ReplacementGroup3 + ReplacementGroup4 +
    WaterAndOil + ReplacementGroup5 + Temperatures + ReplacementGroup6 + ReplacementGroup7

  const ReplacementGroup1: seq<(string, string)> := [
    ("ブレーキ", "brake"),
    ("旋回", "rotation"),
    ("ロック", "lock"),
    ("クラッチ", "clutch"),
    ("コントローラー", "controller"),
    ("操作", "operation"),
    ("レバー", "lever"),
    ("ペダル", "pedal")
  ]

  const ReplacementGroup2: seq<(string, string)> := [
    ("過負荷", "overload"),
    ("警報", "alarm"),
    ("装置", "device"),
    ("エンジン", "engine"),
    ("状態", "status"),
    ("走行", "travel"),
    ("モータ", "motor"),
    ("減速機", "reducer")
  ]

  const ReplacementGroup3: seq<(string, string)> := [
    ("メーター", "meter"),
    ("ホーン", "horn"),
    ("油圧", "hydraulic"),
    ("シリンダー", "cylinder"),
    ("ホース", "hose"),
    ("フック", "hook"),
    ("ワイヤ", "wire"),
    ("外れ止め", "stopper")
  ]

  const ReplacementGroup4: seq<(string, string)> := [
    ("ブーム", "boom"),
    ("アーム", "arm"),
    ("バケット", "bucket"),
    ("リンク", "link"),
    ("機構", "mechanism"),
    ("落下防止", "fall_prevention")
  ]

  const WaterAndOil: seq<(string, string)> := [
    ("水", "water"),
    ("油", "oil")
  ]

  const ReplacementGroup5: seq<(string, string)> := [
    ("燃料", "fuel"),
    ("漏れ", "leak"),
    ("バックミラー", "back_mirror"),
    ("計器", "gauge")
  ]

  const Temperatures: seq<(string, string)> := [
    ("水温", "water_temp"),
    ("油温", "oil_temp")
  ]

  const ReplacementGroup6: seq<(string, string)> := [
    ("制動", "braking"),
    ("駐車", "parking"),
    ("ステアリング", "steering"),
    ("ドーザブレード", "dozer_blade"),
    ("リッパー", "ripper"),
    ("履帯", "crawler"),
    ("車輪", "wheel"),
    ("摩耗", "wear")
  ]

  const ReplacementGroup7: seq<(string, string)> := [
    ("亀裂", "crack"),
    ("損傷", "damage"),
    ("タイヤ", "tire"),
    ("空気圧", "air_pressure"),
    ("荷役", "cargo_handling"),
    ("荷台", "loading_platform")
  ]

  /** The characters the first step of `generate_item_id` turns into '_'. */
  const Separators: seq<char> := ['（', '）', '(', ')', '・', '、', '。', ' ', '　']

  predicate IsSeparator(c: char) {
    c in Separators
  }

  /** The first step: every bracket, listing mark, full stop and space becomes '_'. */
  function Underscored(text: string): string {
    var s1 := ReplaceAll(ReplaceAll(text, "（", "_"), "）", "_");
    var s2 := ReplaceAll(ReplaceAll(s1, "(", "_"), ")", "_");
    var s3 := ReplaceAll(ReplaceAll(ReplaceAll(s2, "・", "_"), "、", "_"), "。", "_");
    ReplaceAll(ReplaceAll(s3, " ", "_"), "　", "_")
  }

  /** One replacement by '_' removes its character and keeps the earlier ones away. */
  lemma SeparatorStep(s: string, c: char, earlier: seq<char>)
    requires c != '_' && '_' !in earlier
    requires forall d :: d in earlier ==> d !in s
    ensures forall d :: d in earlier + [c] ==> d !in ReplaceAll(s, [c], "_")
  {
    ReplaceCharRemoves(s, c, "_");
    forall d | d in earlier
      ensures d !in ReplaceAll(s, [c], "_")
    {
      ReplaceAllKeepsAbsent(s, [c], "_", d);
    }
  }

  /** No separator survives the first step. */
  lemma {:induction false} UnderscoredNoSeparator(text: string)
    ensures forall c :: IsSeparator(c) ==> c !in Underscored(text)
  {
    var a := ReplaceAll(text, "（", "_");
    SeparatorStep(text, '（', []);
    var b := ReplaceAll(a, "）", "_");
    SeparatorStep(a, '）', ['（']);
    var c := ReplaceAll(b, "(", "_");
    SeparatorStep(b, '(', ['（', '）']);
    var d := ReplaceAll(c, ")", "_");
    SeparatorStep(c, ')', ['（', '）', '(']);
    var e := ReplaceAll(d, "・", "_");
    SeparatorStep(d, '・', ['（', '）', '(', ')']);
    var f := ReplaceAll(e, "、", "_");
    SeparatorStep(e, '、', ['（', '）', '(', ')', '・']);
    var g := ReplaceAll(f, "。", "_");
    SeparatorStep(f, '。', ['（', '）', '(', ')', '・', '、']);
    var h := ReplaceAll(g, " ", "_");
    SeparatorStep(g, ' ', ['（', '）', '(', ')', '・', '、', '。']);
    SeparatorStep(h, '　', ['（', '）', '(', ')', '・', '、', '。', ' ']);
    assert ['（', '）', '(', ')', '・', '、', '。', ' '] + ['　'] == Separators;
  }

  /** A replacement whose pattern starts with a character absent from the text
      changes nothing. */
  lemma {:induction false} ReplaceMissingFirst(s: string, pat: string, rep: string)
    requires |pat| > 0 && pat[0] !in s
    ensures ReplaceAll(s, pat, rep) == s
    decreases |s|
  {
    if |s| >= |pat| {
      assert s[..|pat|][0] == s[0];
      ReplaceMissingFirst(s[1..], pat, rep);
      assert [s[0]] + s[1..] == s;
    }
  }

  /** A text without separators passes the first step unchanged. */
  lemma UnderscoredFixed(s: string)
    requires forall c :: IsSeparator(c) ==> c !in s
    ensures Underscored(s) == s
  {
    ReplaceMissingFirst(s, "（", "_");
    ReplaceMissingFirst(s, "）", "_");
    ReplaceMissingFirst(s, "(", "_");
    ReplaceMissingFirst(s, ")", "_");
    ReplaceMissingFirst(s, "・", "_");
    ReplaceMissingFirst(s, "、", "_");
    ReplaceMissingFirst(s, "。", "_");
    ReplaceMissingFirst(s, " ", "_");
    ReplaceMissingFirst(s, "　", "_");
  }

  /** The characters `[ぁ-んァ-ヶー一-龥]` that the third step deletes. */
  predicate IsJapanese(c: char) {
    ('ぁ' <= c <= 'ん') || ('ァ' <= c <= 'ヶ') || c == 'ー' || ('一' <= c <= '龥')
  }

  /** The characters a romanisation produces. */
  predicate IsIdChar(c: char) {
    ('a' <= c <= 'z') || c == '_'
  }

  /** Every pattern is non-empty and starts with a Japanese character, and every
      replacement is written in lower-case letters and '_'. */
  predicate ValidTable(table: seq<(string, string)>) {
    forall i :: 0 <= i < |table| ==> ValidEntry(table[i])
  }

  predicate ValidEntry(e: (string, string)) {
    |e.0| > 0 && IsJapanese(e.0[0]) && forall k :: 0 <= k < |e.1| ==> IsIdChar(e.1[k])
  }

  /** The second step: the entries of the table applied one after the other,
      each replacing every occurrence of its pattern. */
  function Romanize(table: seq<(string, string)>, s: string): string
    requires ValidTable(table)
    decreases |table|
  {
    if |table| == 0 then s else Romanize(table[1..], ReplaceAll(s, table[0].0, table[0].1))
  }

  lemma {:induction false} RomanizeAppend(t1: seq<(string, string)>, t2: seq<(string, string)>, s: string)
    requires ValidTable(t1) && ValidTable(t2)
    ensures ValidTable(t1 + t2)
    ensures Romanize(t1 + t2, s) == Romanize(t2, Romanize(t1, s))
    decreases |t1|
  {
    if |t1| == 0 {
      assert t1 + t2 == t2;
    } else {
      assert (t1 + t2)[1..] == t1[1..] + t2;
      RomanizeAppend(t1[1..], t2, ReplaceAll(s, t1[0].0, t1[0].1));
    }
  }

  /** What the loop of `generate_item_id` does with one more entry. */
  lemma RomanizeSnoc(table: seq<(string, string)>, i: nat, s: string)
    requires ValidTable(table) && i < |table|
    ensures ValidTable(table[..i]) && ValidTable(table[..i + 1])
    ensures Romanize(table[..i + 1], s) == ReplaceAll(Romanize(table[..i], s), table[i].0, table[i].1)
  {
    assert ValidTable([table[i]]);
    assert table[..i + 1] == table[..i] + [table[i]];
    RomanizeAppend(table[..i], [table[i]], s);
  }

  /** A character that no replacement produces stays absent. */
  lemma {:induction false} RomanizeKeepsAbsent(table: seq<(string, string)>, s: string, c: char)
    requires ValidTable(table) && c !in s && !IsIdChar(c)
    ensures c !in Romanize(table, s)
    decreases |table|
  {
    if |table| > 0 {
      ReplaceAllKeepsAbsent(s, table[0].0, table[0].1, c);
      RomanizeKeepsAbsent(table[1..], ReplaceAll(s, table[0].0, table[0].1), c);
    }
  }

  /** A text without Japanese characters is left alone by the table. */
  lemma {:induction false} RomanizeUntouched(table: seq<(string, string)>, s: string)
    requires ValidTable(table)
    requires forall c :: c in s ==> !IsJapanese(c)
    ensures Romanize(table, s) == s
    decreases |table|
  {
    if |table| > 0 {
      ReplaceMissingFirst(s, table[0].0, table[0].1);
      RomanizeUntouched(table[1..], s);
    }
  }

  /** The third step: the Japanese characters the table did not translate are dropped. */
  function DropJapanese(s: string): (r: string)
    ensures forall c :: c in r <==> c in s && !IsJapanese(c)
    ensures (forall c :: c in s ==> !IsJapanese(c)) ==> r == s
    decreases |s|
  {
    if |s| == 0 then ""
    else if IsJapanese(s[0]) then DropJapanese(s[1..])
    else (assert s == [s[0]] + s[1..]; [s[0]] + DropJapanese(s[1..]))
  }

  predicate NoDoubleUnderscore(s: string) {
    forall i :: 0 <= i < |s| - 1 ==> !(s[i] == '_' && s[i + 1] == '_')
  }

  /** The fourth step, `re.sub('_+', '_', ...)`: every run of '_' becomes one '_'. */
  function Collapse(s: string): (r: string)
    ensures NoDoubleUnderscore(r)
    ensures forall c :: c in r <==> c in s
    ensures |s| > 0 ==> |r| > 0 && r[0] == s[0] && r[|r| - 1] == s[|s| - 1]
    decreases |s|
  {
    if |s| < 2 then s
    else if s[0] == '_' && s[1] == '_' then Collapse(s[1..])
    else (assert s == [s[0]] + s[1..]; [s[0]] + Collapse(s[1..]))
  }

  /** Collapsing removes underscores only, and leaves a string without a
      double underscore as it is. */
  lemma CollapseKeepsText(s: string)
    ensures RemoveChar(Collapse(s), '_') == RemoveChar(s, '_')
    ensures NoDoubleUnderscore(s) ==> Collapse(s) == s
  {
    CollapseRemovesUnderscores(s);
    if NoDoubleUnderscore(s) {
      CollapseFixed(s);
    }
  }

  lemma {:induction false} CollapseRemovesUnderscores(s: string)
    ensures RemoveChar(Collapse(s), '_') == RemoveChar(s, '_')
    decreases |s|
  {
    if |s| >= 2 {
      CollapseRemovesUnderscores(s[1..]);
      var x := Collapse(s[1..]);
      if s[0] == '_' && s[1] == '_' {
        assert RemoveChar(s, '_') == RemoveChar(s[1..], '_');
      } else {
        assert ([s[0]] + x)[1..] == x;
        assert RemoveChar([s[0]] + x, '_') == (if s[0] == '_' then "" else [s[0]]) + RemoveChar(x, '_');
      }
    }
  }

  lemma {:induction false} CollapseFixed(s: string)
    requires NoDoubleUnderscore(s)
    ensures Collapse(s) == s
    decreases |s|
  {
    if |s| >= 2 {
      assert !(s[0] == '_' && s[1] == '_');
      assert NoDoubleUnderscore(s[1..]);
      CollapseFixed(s[1..]);
      assert s == [s[0]] + s[1..];
    }
  }

  /** `lstrip('_')`. */
  function StripLeadingUnderscores(s: string): (r: string)
    ensures |r| <= |s| && r == s[|s| - |r|..]
    ensures forall i :: 0 <= i < |s| - |r| ==> s[i] == '_'
    ensures |r| > 0 ==> r[0] != '_'
    decreases |s|
  {
    if |s| > 0 && s[0] == '_' then StripLeadingUnderscores(s[1..]) else s
  }

  /** `rstrip('_')`. */
  function StripTrailingUnderscores(s: string): (r: string)
    ensures |r| <= |s| && r == s[..|r|]
    ensures forall i :: |r| <= i < |s| ==> s[i] == '_'
    ensures |r| > 0 ==> r[|r| - 1] != '_'
    decreases |s|
  {
    if |s| > 0 && s[|s| - 1] == '_' then StripTrailingUnderscores(s[..|s| - 1]) else s
  }

  /** The fifth step, `strip('_')`. */
  function StripUnderscores(s: string): string {
    StripTrailingUnderscores(StripLeadingUnderscores(s))
  }

  predicate IsUpper(c: char) {
    'A' <= c <= 'Z'
  }

  function LowerChar(c: char): char {
    if IsUpper(c) then (c as int + 32) as char else c
  }

  /** The sixth step, `lower()` on the ASCII letters. */
  function AsciiLower(s: string): (r: string)
    ensures |r| == |s|
    ensures forall i :: 0 <= i < |s| ==> (r[i] == '_' <==> s[i] == '_') && !IsUpper(r[i])
    ensures forall i :: 0 <= i < |s| && !IsUpper(s[i]) ==> r[i] == s[i]
    ensures forall i :: 0 <= i < |s| ==> r[i] == s[i] || 'a' <= r[i] <= 'z'
  {
    seq(|s|, i requires 0 <= i < |s| => LowerChar(s[i]))
  }

  /** Steps three to six, with 'item' for a text that leaves nothing. */
  function Finish(s: string): string {
    var r := AsciiLower(StripUnderscores(Collapse(DropJapanese(s))));
    if r == "" then "item" else r
  }

  /** `generate_item_id` with a given romanisation table. */
  function ItemIdWith(table: seq<(string, string)>, text: string): string
    requires ValidTable(table)
  {
    Finish(Romanize(table, Underscored(text)))
  }

  /** The shape of every id: non-empty, no '_' at either end, no run of '_', no
      separator, no untranslated Japanese and no upper-case ASCII letter. */
  predicate CleanId(s: string) {
    |s| > 0 && s[0] != '_' && s[|s| - 1] != '_' && NoDoubleUnderscore(s) &&
    forall i :: 0 <= i < |s| ==> !IsSeparator(s[i]) && !IsJapanese(s[i]) && !IsUpper(s[i])
  }

  /** Stripping leaves no '_' at either end. */
  lemma StripEdges(c: string)
    ensures var t := StripUnderscores(c); |t| > 0 ==> t[0] != '_' && t[|t| - 1] != '_'
  {
    var l := StripLeadingUnderscores(c);
    var t := StripTrailingUnderscores(l);
    assert |t| > 0 ==> t[0] == l[0];
  }

  /** A slice of a text without runs of '_' has none, and takes no new character. */
  lemma SliceInner(c: string, a: nat, b: nat)
    requires NoDoubleUnderscore(c) && a <= b <= |c|
    ensures NoDoubleUnderscore(c[a..b]) && forall i :: 0 <= i < b - a ==> c[a..b][i] in c
  {
    assert forall i :: 0 <= i < b - a ==> c[a..b][i] == c[a + i];
  }

  /** Stripping keeps a text free of runs of '_' and takes no new character. */
  lemma StripInner(c: string)
    requires NoDoubleUnderscore(c)
    ensures var t := StripUnderscores(c);
      NoDoubleUnderscore(t) && forall i :: 0 <= i < |t| ==> t[i] in c
  {
    var l := StripLeadingUnderscores(c);
    var t := StripTrailingUnderscores(l);
    var a := |c| - |l|;
    assert t == c[a..a + |t|];
    SliceInner(c, a, a + |t|);
  }

  lemma FinishClean(s: string)
    requires forall c :: IsSeparator(c) ==> c !in s
    ensures CleanId(Finish(s))
  {
    var c := Collapse(DropJapanese(s));
    StripEdges(c);
    StripInner(c);
    var t := StripUnderscores(c);
    assert forall i :: 0 <= i < |t| ==> !IsSeparator(t[i]) && !IsJapanese(t[i]);
    LowerClean(t);
    if t == "" {
      FallbackClean();
    }
  }

  /** A non-empty text of lower-case letters and single '_' between them has the
      shape of an id. */
  lemma LowerCaseClean(s: string)
    requires |s| > 0 && s[0] != '_' && s[|s| - 1] != '_' && NoDoubleUnderscore(s)
    requires forall i :: 0 <= i < |s| ==> IsIdChar(s[i])
    ensures CleanId(s)
  {
    forall i | 0 <= i < |s|
      ensures !IsSeparator(s[i]) && !IsJapanese(s[i]) && !IsUpper(s[i])
    {
    }
  }

  /** The fallback id has the shape of an id. */
  lemma FallbackClean()
    ensures CleanId("item")
  {
    LowerCaseClean("item");
  }

  lemma LowerClean(t: string)
    requires NoDoubleUnderscore(t) && (|t| > 0 ==> t[0] != '_' && t[|t| - 1] != '_')
    requires forall i :: 0 <= i < |t| ==> !IsSeparator(t[i]) && !IsJapanese(t[i])
    ensures |t| > 0 ==> CleanId(AsciiLower(t))
  {
    var r := AsciiLower(t);
    forall i | 0 <= i < |r| - 1
      ensures !(r[i] == '_' && r[i + 1] == '_')
    {
      assert r[i] == '_' <==> t[i] == '_';
      assert r[i + 1] == '_' <==> t[i + 1] == '_';
    }
    forall i | 0 <= i < |r|
      ensures !IsSeparator(r[i]) && !IsJapanese(r[i])
    {
      if r[i] != t[i] {
        assert 'a' <= r[i] <= 'z';
      }
    }
  }

  /** Every id the generator produces has that shape. */
  lemma ItemIdShape(table: seq<(string, string)>, text: string)
    requires ValidTable(table)
    ensures CleanId(ItemIdWith(table, text))
  {
    var u := Underscored(text);
    UnderscoredNoSeparator(text);
    forall c | IsSeparator(c)
      ensures c !in Romanize(table, u)
    {
      RomanizeKeepsAbsent(table, u, c);
    }
    FinishClean(Romanize(table, u));
  }

  /** An id of that shape is its own id. */
  lemma CleanIdFixed(table: seq<(string, string)>, s: string)
    requires ValidTable(table) && CleanId(s)
    ensures ItemIdWith(table, s) == s
  {
    UnderscoredFixed(s);
    RomanizeUntouched(table, s);
    FinishFixed(s);
  }

  /** Once the Japanese characters are gone, an id of the right shape is kept. */
  lemma FinishFixed(s: string)
    requires CleanId(DropJapanese(s))
    ensures Finish(s) == DropJapanese(s)
  {
    var d := DropJapanese(s);
    CollapseKeepsText(d);
    assert StripLeadingUnderscores(d) == d;
    assert StripTrailingUnderscores(d) == d;
    assert AsciiLower(d) == d;
  }

  /** Generating the id of an id changes nothing. */
  lemma ItemIdIdempotent(table: seq<(string, string)>, text: string)
    requires ValidTable(table)
    ensures ItemIdWith(table, ItemIdWith(table, text)) == ItemIdWith(table, text)
  {
    ItemIdShape(table, text);
    CleanIdFixed(table, ItemIdWith(table, text));
  }

  // ---------------------------------------------------------------------------
  // The order of the table.
  // ---------------------------------------------------------------------------

  lemma ValidTableConcat(t1: seq<(string, string)>, t2: seq<(string, string)>)
    requires ValidTable(t1) && ValidTable(t2)
    ensures ValidTable(t1 + t2)
  {
    assert forall i :: 0 <= i < |t1| ==> (t1 + t2)[i] == t1[i];
    assert forall i :: |t1| <= i < |t1 + t2| ==> (t1 + t2)[i] == t2[i - |t1|];
  }

  lemma ReplacementGroup1Valid()
    ensures ValidTable(ReplacementGroup1)
  {
  }

  lemma ReplacementGroup2Valid()
    ensures ValidTable(ReplacementGroup2)
  {
  }

  lemma ReplacementGroup3Valid()
    ensures ValidTable(ReplacementGroup3)
  {
  }

  lemma ReplacementGroup4Valid()
    ensures ValidTable(ReplacementGroup4)
  {
  }

  lemma WaterAndOilValid()
    ensures ValidTable(WaterAndOil)
  {
  }

  lemma ReplacementGroup5Valid()
    ensures ValidTable(ReplacementGroup5)
  {
  }

  lemma TemperaturesValid()
    ensures ValidTable(Temperatures)
  {
  }

  lemma ReplacementGroup6Valid()
    ensures ValidTable(ReplacementGroup6)
  {
  }

  lemma ReplacementGroup7Valid()
    ensures ValidTable(ReplacementGroup7)
  {
    assert ValidEntry(("亀裂", "crack")) && ValidEntry(("損傷", "damage")) && ValidEntry(("タイヤ", "tire"));
    assert ValidEntry(("空気圧", "air_pressure"));
    assert ValidEntry(("荷役", "cargo_handling"));
    assert ValidEntry(("荷台", "loading_platform"));
  }

  lemma ReplacementsValid()
    ensures ValidTable(Replacements)
  {
    ReplacementGroup1Valid();
    ReplacementGroup2Valid();
    ReplacementGroup3Valid();
    ReplacementGroup4Valid();
    WaterAndOilValid();
    ReplacementGroup5Valid();
    TemperaturesValid();
    ReplacementGroup6Valid();
    ReplacementGroup7Valid();
    ValidTableConcat(ReplacementGroup1, ReplacementGroup2);
    ValidTableConcat(ReplacementGroup1 + ReplacementGroup2, ReplacementGroup3);
    ValidTableConcat(ReplacementGroup1 + ReplacementGroup2 + ReplacementGroup3, ReplacementGroup4);
    ValidTableConcat(ReplacementGroup1 + ReplacementGroup2 + ReplacementGroup3 + ReplacementGroup4, WaterAndOil);
    ValidTableConcat(ReplacementGroup1 + ReplacementGroup2 + ReplacementGroup3 + ReplacementGroup4 + WaterAndOil, ReplacementGroup5);
    ValidTableConcat(ReplacementGroup1 + ReplacementGroup2 + ReplacementGroup3 + ReplacementGroup4 + WaterAndOil + ReplacementGroup5, Temperatures);
    ValidTableConcat(ReplacementGroup1 + ReplacementGroup2 + ReplacementGroup3 + ReplacementGroup4 + WaterAndOil + ReplacementGroup5 + Temperatures, ReplacementGroup6);
    ValidTableConcat(ReplacementGroup1 + ReplacementGroup2 + ReplacementGroup3 + ReplacementGroup4 + WaterAndOil + ReplacementGroup5 + Temperatures + ReplacementGroup6, ReplacementGroup7);
  }

  /** A table of entries none of whose patterns can start in the text leaves it alone. */
  lemma {:induction false} RomanizeMissing(table: seq<(string, string)>, s: string)
    requires ValidTable(table)
    requires forall i :: 0 <= i < |table| ==> table[i].0[0] !in s
    ensures Romanize(table, s) == s
    decreases |table|
  {
    if |table| > 0 {
      ReplaceMissingFirst(s, table[0].0, table[0].1);
      RomanizeMissing(table[1..], s);
    }
  }

  lemma RomanizePair(e1: (string, string), e2: (string, string), s: string)
    requires ValidEntry(e1) && ValidEntry(e2)
    ensures ValidTable([e1, e2])
    ensures Romanize([e1, e2], s) == ReplaceAll(ReplaceAll(s, e1.0, e1.1), e2.0, e2.1)
  {
    var s1 := ReplaceAll(s, e1.0, e1.1);
    assert [e1, e2][1..] == [e2];
    assert [e2][1..] == [];
    assert Romanize([e1, e2], s) == Romanize([e2], s1);
    assert Romanize([e2], s1) == Romanize([], ReplaceAll(s1, e2.0, e2.1));
  }

  /** The four groups before 水 and 油. */
  function Leading(): (t: seq<(string, string)>)
    ensures ValidTable(t)
  {
    ReplacementGroup1Valid();
    ReplacementGroup2Valid();
    ReplacementGroup3Valid();
    ReplacementGroup4Valid();
    ValidTableConcat(ReplacementGroup1, ReplacementGroup2);
    ValidTableConcat(ReplacementGroup1 + ReplacementGroup2, ReplacementGroup3);
    ValidTableConcat(ReplacementGroup1 + ReplacementGroup2 + ReplacementGroup3, ReplacementGroup4);
    ReplacementGroup1 + ReplacementGroup2 + ReplacementGroup3 + ReplacementGroup4
  }

  /** The table as written, without its entries for 水温 and 油温. */
  const WithoutTemperatures: seq<(string, string)> :=
    ReplacementGroup1 + ReplacementGroup2 + ReplacementGroup3 + ReplacementGroup4 +
    WaterAndOil + ReplacementGroup5 + ReplacementGroup6 + ReplacementGroup7

  /** Once 水 and 油 have been replaced, the entries for 水温 and 油温 find nothing. */
  lemma TemperaturesAfterWaterAndOil(a: string)
    ensures ValidTable(WaterAndOil) && ValidTable(ReplacementGroup5) && ValidTable(Temperatures)
    ensures var c := Romanize(ReplacementGroup5, Romanize(WaterAndOil, a));
      Romanize(Temperatures, c) == c
  {
    WaterAndOilValid();
    ReplacementGroup5Valid();
    TemperaturesValid();
    RomanizePair(("水", "water"), ("油", "oil"), a);
    var a1 := ReplaceAll(a, "水", "water");
    ReplaceCharRemoves(a, '水', "water");
    ReplaceAllKeepsAbsent(a1, "油", "oil", '水');
    ReplaceCharRemoves(a1, '油', "oil");
    var b := Romanize(WaterAndOil, a);
    var c := Romanize(ReplacementGroup5, b);
    RomanizeKeepsAbsent(ReplacementGroup5, b, '水');
    RomanizeKeepsAbsent(ReplacementGroup5, b, '油');
    RomanizeMissing(Temperatures, c);
  }

  /** The entries for 水温 and 油温 come after those for 水 and 油, which have by
      then replaced every 水 and 油, so they never apply: the table gives the same
      result without them. */
  lemma TemperaturesNeverApply(s: string)
    ensures ValidTable(Replacements) && ValidTable(WithoutTemperatures)
    ensures Romanize(Replacements, s) == Romanize(WithoutTemperatures, s)
  {
    var pre := Leading();
    WaterAndOilValid();
    ReplacementGroup5Valid();
    TemperaturesValid();
    ReplacementGroup6Valid();
    ReplacementGroup7Valid();
    TemperaturesAfterWaterAndOil(Romanize(pre, s));
    RomanizeAppend(pre, WaterAndOil, s);
    RomanizeAppend(pre + WaterAndOil, ReplacementGroup5, s);
    RomanizeAppend(pre + WaterAndOil + ReplacementGroup5, Temperatures, s);
    RomanizeAppend(pre + WaterAndOil + ReplacementGroup5 + Temperatures, ReplacementGroup6, s);
    RomanizeAppend(pre + WaterAndOil + ReplacementGroup5 + Temperatures + ReplacementGroup6, ReplacementGroup7, s);
    RomanizeAppend(pre + WaterAndOil + ReplacementGroup5, ReplacementGroup6, s);
    RomanizeAppend(pre + WaterAndOil + ReplacementGroup5 + ReplacementGroup6, ReplacementGroup7, s);
  }

  /** The table with the entries for 水温 and 油温 moved before those for 水 and
      油, so that the longer patterns are tried first. */
  const IntendedReplacements: seq<(string, string)> :=
    ReplacementGroup1 + ReplacementGroup2 + ReplacementGroup3 + ReplacementGroup4 +
    Temperatures + WaterAndOil + ReplacementGroup5 + ReplacementGroup6 + ReplacementGroup7

  lemma IntendedReplacementsValid()
    ensures ValidTable(IntendedReplacements)
  {
    var pre := Leading();
    TemperaturesValid();
    WaterAndOilValid();
    ReplacementGroup5Valid();
    ReplacementGroup6Valid();
    ReplacementGroup7Valid();
    ValidTableConcat(pre, Temperatures);
    ValidTableConcat(pre + Temperatures, WaterAndOil);
    ValidTableConcat(pre + Temperatures + WaterAndOil, ReplacementGroup5);
    ValidTableConcat(pre + Temperatures + WaterAndOil + ReplacementGroup5, ReplacementGroup6);
    ValidTableConcat(pre + Temperatures + WaterAndOil + ReplacementGroup5 + ReplacementGroup6, ReplacementGroup7);
  }

  /** The id `generate_item_id` gives an inspection item, with the table in
      the order the script writes it. */
  function ItemId(text: string): string {
    ReplacementsValid();
    ItemIdWith(Replacements, text)
  }

  /** The id with the table in its intended order, the temperature entries
      before those for 水 and 油. */
  function IntendedItemId(text: string): string {
    IntendedReplacementsValid();
    ItemIdWith(IntendedReplacements, text)
  }

  /** `generate_item_id`: the separators become '_', the table is applied entry
      by entry, and the result is cleaned up. */
  method GenerateItemId(text: string) returns (id: string)
    ensures id == ItemId(text)
    ensures CleanId(id)
  {
    var t := ReplaceAll(text, "（", "_");
    t := ReplaceAll(t, "）", "_");
    t := ReplaceAll(t, "(", "_");
    t := ReplaceAll(t, ")", "_");
    t := ReplaceAll(t, "・", "_");
    t := ReplaceAll(t, "、", "_");
    t := ReplaceAll(t, "。", "_");
    t := ReplaceAll(t, " ", "_");
    t := ReplaceAll(t, "　", "_");
    assert t == Underscored(text);
    ReplacementsValid();
    var table := Replacements;
    var result := t;
    for i := 0 to |table|
      invariant ValidTable(table[..i])
      invariant result == Romanize(table[..i], t)
    {
      RomanizeSnoc(table, i, t);
      result := ReplaceAll(result, table[i].0, table[i].1);
    }
    assert table[..|table|] == table;
    result := DropJapanese(result);
    result := Collapse(result);
    result := StripUnderscores(result);
    result := AsciiLower(result);
    id := if result == "" then "item" else result;
    ItemIdShape(table, text);
  }

  lemma Group1MissesWaterTemperature()
    ensures ValidTable(ReplacementGroup1) && Romanize(ReplacementGroup1, "水温") == "水温"
  {
    ReplacementGroup1Valid();
    RomanizeMissing(ReplacementGroup1, "水温");
  }

  lemma Group2MissesWaterTemperature()
    ensures ValidTable(ReplacementGroup2) && Romanize(ReplacementGroup2, "水温") == "水温"
  {
    ReplacementGroup2Valid();
    RomanizeMissing(ReplacementGroup2, "水温");
  }

  lemma Group3MissesWaterTemperature()
    ensures ValidTable(ReplacementGroup3) && Romanize(ReplacementGroup3, "水温") == "水温"
  {
    ReplacementGroup3Valid();
    RomanizeMissing(ReplacementGroup3, "水温");
  }

  lemma Group4MissesWaterTemperature()
    ensures ValidTable(ReplacementGroup4) && Romanize(ReplacementGroup4, "水温") == "水温"
  {
    ReplacementGroup4Valid();
    RomanizeMissing(ReplacementGroup4, "水温");
  }

  /** None of the four leading groups has a pattern that can start in 水温. */
  lemma LeadingMissesWaterTemperature()
    ensures Romanize(Leading(), "水温") == "水温"
  {
    var w := "水温";
    Group1MissesWaterTemperature();
    Group2MissesWaterTemperature();
    Group3MissesWaterTemperature();
    Group4MissesWaterTemperature();
    RomanizeAppend(ReplacementGroup1, ReplacementGroup2, w);
    RomanizeAppend(ReplacementGroup1 + ReplacementGroup2, ReplacementGroup3, w);
    RomanizeAppend(ReplacementGroup1 + ReplacementGroup2 + ReplacementGroup3, ReplacementGroup4, w);
  }

  lemma {:induction false} DropJapaneseSuffix(s: string, c: char)
    requires forall x :: x in s ==> !IsJapanese(x)
    requires IsJapanese(c)
    ensures DropJapanese(s + [c]) == s
    decreases |s|
  {
    if |s| == 0 {
      assert [c][1..] == "";
    } else {
      assert (s + [c])[1..] == s[1..] + [c];
      DropJapaneseSuffix(s[1..], c);
      assert [s[0]] + s[1..] == s;
    }
  }

  lemma Group5MissesHalfTranslated()
    ensures ValidTable(ReplacementGroup5) && Romanize(ReplacementGroup5, "water温") == "water温"
  {
    ReplacementGroup5Valid();
    RomanizeMissing(ReplacementGroup5, "water温");
  }

  lemma TemperaturesMissesHalfTranslated()
    ensures ValidTable(Temperatures) && Romanize(Temperatures, "water温") == "water温"
  {
    TemperaturesValid();
    RomanizeMissing(Temperatures, "water温");
  }

  lemma Group6MissesHalfTranslated()
    ensures ValidTable(ReplacementGroup6) && Romanize(ReplacementGroup6, "water温") == "water温"
  {
    ReplacementGroup6Valid();
    RomanizeMissing(ReplacementGroup6, "water温");
  }

  lemma Group7MissesHalfTranslated()
    ensures ValidTable(ReplacementGroup7) && Romanize(ReplacementGroup7, "water温") == "water温"
  {
    ReplacementGroup7Valid();
    RomanizeMissing(ReplacementGroup7, "water温");
  }

  lemma WaterTemperatureUnderscored()
    ensures Underscored("水温") == "水温"
  {
    var w := "水温";
    assert forall c :: c in w ==> IsJapanese(c);
    forall c | IsSeparator(c)
      ensures c !in w
    {
      assert !IsJapanese(c);
    }
    UnderscoredFixed(w);
  }

  lemma WaterAndOilOnWaterTemperature()
    ensures ValidTable(WaterAndOil) && Romanize(WaterAndOil, "水温") == "water温"
  {
    var w := "水温";
    var h := "water温";
    WaterAndOilValid();
    RomanizePair(("水", "water"), ("油", "oil"), w);
    assert w[..1] == "水" && w[1..] == "温";
    ReplaceMissingFirst("温", "水", "water");
    assert ReplaceAll(w, "水", "water") == h;
    ReplaceMissingFirst(h, "油", "oil");
  }

  /** The table as written leaves 温 untranslated. */
  lemma RomanizeWaterTemperatureAsWritten()
    ensures ValidTable(Replacements) && Romanize(Replacements, "水温") == "water温"
  {
    var w := "水温";
    var pre := Leading();
    LeadingMissesWaterTemperature();
    WaterAndOilOnWaterTemperature();
    Group5MissesHalfTranslated();
    TemperaturesMissesHalfTranslated();
    Group6MissesHalfTranslated();
    Group7MissesHalfTranslated();
    RomanizeAppend(pre, WaterAndOil, w);
    RomanizeAppend(pre + WaterAndOil, ReplacementGroup5, w);
    RomanizeAppend(pre + WaterAndOil + ReplacementGroup5, Temperatures, w);
    RomanizeAppend(pre + WaterAndOil + ReplacementGroup5 + Temperatures, ReplacementGroup6, w);
    RomanizeAppend(pre + WaterAndOil + ReplacementGroup5 + Temperatures + ReplacementGroup6, ReplacementGroup7, w);
  }

  lemma WaterClean()
    ensures CleanId("water")
  {
    LowerCaseClean("water");
  }

  lemma TranslatedClean()
    ensures CleanId("water_temp")
  {
    LowerCaseClean("water_temp");
  }

  lemma FinishHalfTranslated()
    ensures Finish("water温") == "water"
  {
    assert "water温" == "water" + ['温'];
    WaterClean();
    DropJapaneseSuffix("water", '温');
    FinishFixed("water温");
  }

  /** As written, 水温 becomes "water": the entry for 水 takes the first character
      and the remaining 温 is dropped as untranslated. */
  lemma WaterTemperatureAsWritten()
    ensures ItemId("水温") == "water"
  {
    WaterTemperatureUnderscored();
    RomanizeWaterTemperatureAsWritten();
    FinishHalfTranslated();
  }

  lemma TemperaturesOnWaterTemperature()
    ensures ValidTable(Temperatures) && Romanize(Temperatures, "水温") == "water_temp"
  {
    var w := "水温";
    var r := "water_temp";
    TemperaturesValid();
    RomanizePair(("水温", "water_temp"), ("油温", "oil_temp"), w);
    assert w[..2] == w && w[2..] == "";
    assert ReplaceAll(w, "水温", "water_temp") == r;
    ReplaceMissingFirst(r, "油温", "oil_temp");
  }

  lemma TrailingLeaveTranslated()
    ensures ValidTable(WaterAndOil) && Romanize(WaterAndOil, "water_temp") == "water_temp"
    ensures ValidTable(ReplacementGroup5) && Romanize(ReplacementGroup5, "water_temp") == "water_temp"
    ensures ValidTable(ReplacementGroup6) && Romanize(ReplacementGroup6, "water_temp") == "water_temp"
    ensures ValidTable(ReplacementGroup7) && Romanize(ReplacementGroup7, "water_temp") == "water_temp"
  {
    var r := "water_temp";
    WaterAndOilValid();
    ReplacementGroup5Valid();
    ReplacementGroup6Valid();
    ReplacementGroup7Valid();
    assert forall c :: c in r ==> !IsJapanese(c);
    RomanizeUntouched(WaterAndOil, r);
    RomanizeUntouched(ReplacementGroup5, r);
    RomanizeUntouched(ReplacementGroup6, r);
    RomanizeUntouched(ReplacementGroup7, r);
  }

  lemma RomanizeWaterTemperatureIntended()
    ensures ValidTable(IntendedReplacements) && Romanize(IntendedReplacements, "水温") == "water_temp"
  {
    var w := "水温";
    var pre := Leading();
    LeadingMissesWaterTemperature();
    TemperaturesOnWaterTemperature();
    TrailingLeaveTranslated();
    RomanizeAppend(pre, Temperatures, w);
    RomanizeAppend(pre + Temperatures, WaterAndOil, w);
    RomanizeAppend(pre + Temperatures + WaterAndOil, ReplacementGroup5, w);
    RomanizeAppend(pre + Temperatures + WaterAndOil + ReplacementGroup5, ReplacementGroup6, w);
    RomanizeAppend(pre + Temperatures + WaterAndOil + ReplacementGroup5 + ReplacementGroup6, ReplacementGroup7, w);
  }

  lemma FinishTranslated()
    ensures Finish("water_temp") == "water_temp"
  {
    TranslatedClean();
    assert DropJapanese("water_temp") == "water_temp";
    FinishFixed("water_temp");
  }

  /** With the intended order, 水温 becomes "water_temp". */
  lemma WaterTemperatureIntended()
    ensures IntendedItemId("水温") == "water_temp"
  {
    WaterTemperatureUnderscored();
    RomanizeWaterTemperatureIntended();
    FinishTranslated();
  }

}
