/**
 The natural sort key of a camera name: the name is cut into alternating runs of
 non-digits and digits, digit runs become integers, and keys are compared the way
 Python compares lists (element by element, a proper prefix first).
 */
module NaturalOrder {
  import opened Sequences

  /** One element of a key: a run of non-digit characters, or the value of a run of digits. */
  datatype Part = Text(s: string) | Num(n: nat)

  predicate IsDigit(c: char) {
    '0' <= c <= '9'
  }

  predicate AllDigits(s: string) {
    forall i :: 0 <= i < |s| ==> IsDigit(s[i])
  }

  predicate NoDigits(s: string) {
    forall i :: 0 <= i < |s| ==> !IsDigit(s[i])
  }

  /** The value `int(s)` of a string of decimal digits (leading zeros allowed). */
  function DigitsValue(s: string): nat
    requires AllDigits(s)
  {
    if s == [] then 0 else 10 * DigitsValue(s[..|s| - 1]) + (s[|s| - 1] as int - '0' as int)
  }

  /**
   `atoi`: a digit string becomes its integer value, anything else stays text.
   `str()` of the value gives a digit string without leading zeros back, and a
   leading zero does not change the value.
   */
  function Atoi(text: string): (p: Part)
    ensures text != [] && AllDigits(text) && (|text| == 1 || text[0] != '0') ==>
              p.Num? && Decimal(p.n) == text
    ensures text != [] && AllDigits(text) && |text| > 1 && text[0] == '0' ==>
              p.Num? && p.n == DigitsValue(text[1..])
    ensures NoDigits(text) ==> p == Text(text)
  {
    if text != [] && AllDigits(text) then
      DigitsRoundTrip(text);
      LeadingZero(text);
      Num(DigitsValue(text))
    else
      Text(text)
  }

  /** A digit string that does not start with '0' has a positive value. */
  lemma {:induction false} DigitsValuePositive(s: string)
    requires s != [] && AllDigits(s) && s[0] != '0'
    ensures DigitsValue(s) >= 1
  {
    if |s| > 1 {
      DigitsValuePositive(s[..|s| - 1]);
    }
  }

  /** `str(int(s))` is `s` for a digit string without leading zeros. */
  lemma {:induction false} DigitsRoundTrip(s: string)
    requires s != [] && AllDigits(s)
    ensures |s| == 1 || s[0] != '0' ==> Decimal(DigitsValue(s)) == s
  {
    if |s| == 1 {
      assert [s[0]] == s;
    } else if s[0] != '0' {
      var init, c := s[..|s| - 1], s[|s| - 1];
      var n := DigitsValue(s);
      DigitsValuePositive(init);
      DigitsRoundTrip(init);
      assert n / 10 == DigitsValue(init) && n % 10 == c as int - '0' as int;
      assert s == init + [c];
    }
  }

  /** `int('0' + t)` is `int(t)`. */
  lemma {:induction false} LeadingZero(s: string)
    requires s != [] && AllDigits(s)
    ensures |s| > 1 && s[0] == '0' ==> DigitsValue(s) == DigitsValue(s[1..])
  {
    if |s| > 2 && s[0] == '0' {
      var init := s[..|s| - 1];
      LeadingZero(init);
      assert init[1..] == s[1..][..|s| - 2];
    } else if |s| == 2 && s[0] == '0' {
      assert s[..1] == ['0'];
    }
  }

  /** The runs joined back together. */
  function Concat(runs: seq<string>): string {
    if runs == [] then [] else runs[0] + Concat(runs[1..])
  }

  /** Alternating runs: non-digit runs at even positions, digit runs at odd positions. */
  ghost predicate Alternating(runs: seq<string>) {
    && |runs| % 2 == 1
    && (forall i :: 0 <= i < |runs| && i % 2 == 0 ==> NoDigits(runs[i]))
    && (forall i :: 0 <= i < |runs| && i % 2 == 1 ==> runs[i] != [] && AllDigits(runs[i]))
  }

  /** Digit runs are maximal: no two digit runs touch, so every inner non-digit run is non-empty. */
  ghost predicate Maximal(runs: seq<string>) {
    forall i :: 0 < i < |runs| - 1 && i % 2 == 0 ==> runs[i] != []
  }

  /**
   `re.split(r'(\d+)', text)`: the text cut at its maximal digit runs, the captured
   runs kept in place. The result always starts and ends with a (possibly empty)
   non-digit run.
   */
  function SplitDigits(text: string): (runs: seq<string>)
    ensures Alternating(runs) && Maximal(runs)
    ensures Concat(runs) == text
    decreases |text|
  {
    if text == [] then [""]
    else
      var rest := SplitDigits(text[1..]);
      assert text == [text[0]] + text[1..];
      if !IsDigit(text[0]) then
        ConsText(text[0], rest);
        [[text[0]] + rest[0]] + rest[1..]
      else if rest[0] == "" && |rest| > 1 then
        ConsDigitExtend(text[0], rest);
        ["", [text[0]] + rest[1]] + rest[2..]
      else
        ConsDigitStart(text[0], rest);
        ["", [text[0]]] + rest
  }

  lemma ConcatCons(run: string, rest: seq<string>)
    ensures Concat([run] + rest) == run + Concat(rest)
  {
    assert ([run] + rest)[1..] == rest;
  }

  /** A non-digit in front joins the leading text run. */
  lemma ConsText(c: char, rest: seq<string>)
    requires !IsDigit(c) && Alternating(rest) && Maximal(rest)
    ensures Alternating([[c] + rest[0]] + rest[1..]) && Maximal([[c] + rest[0]] + rest[1..])
    ensures Concat([[c] + rest[0]] + rest[1..]) == [c] + Concat(rest)
  {
    ConsTextRuns(c, rest);
    ConsTextConcat(c, rest);
  }

  lemma ConsTextRuns(c: char, rest: seq<string>)
    requires !IsDigit(c) && Alternating(rest) && Maximal(rest)
    ensures Alternating([[c] + rest[0]] + rest[1..]) && Maximal([[c] + rest[0]] + rest[1..])
  {
    var r := [[c] + rest[0]] + rest[1..];
    assert |r| == |rest|;
    forall i | 0 <= i < |r| && i % 2 == 0
      ensures NoDigits(r[i])
    {
      if i > 0 {
        assert r[i] == rest[i];
      } else {
        assert NoDigits(rest[0]);
      }
    }
    forall i | 0 <= i < |r| && i % 2 == 1
      ensures r[i] != [] && AllDigits(r[i])
    {
      assert r[i] == rest[i];
    }
    forall i | 0 < i < |r| - 1 && i % 2 == 0
      ensures r[i] != []
    {
      assert r[i] == rest[i];
    }
  }

  lemma ConsTextConcat(c: char, rest: seq<string>)
    requires rest != []
    ensures Concat([[c] + rest[0]] + rest[1..]) == [c] + Concat(rest)
  {
    var h, t := [c] + rest[0], rest[1..];
    ConcatCons(h, t);
    assert Concat(rest) == rest[0] + Concat(t);
    AppendAssociative([c], rest[0], Concat(t));
  }

  lemma ModTwoShift(n: nat)
    ensures (n + 2) % 2 == n % 2
  {
  }

  /** A digit in front of an empty text run extends the following digit run. */
  lemma ConsDigitExtend(c: char, rest: seq<string>)
    requires IsDigit(c) && Alternating(rest) && Maximal(rest) && rest[0] == "" && |rest| > 1
    ensures Alternating(["", [c] + rest[1]] + rest[2..]) && Maximal(["", [c] + rest[1]] + rest[2..])
    ensures Concat(["", [c] + rest[1]] + rest[2..]) == [c] + Concat(rest)
  {
    ConsDigitExtendRuns(c, rest);
    ConsDigitExtendConcat(c, rest);
  }

  lemma ConsDigitExtendRuns(c: char, rest: seq<string>)
    requires IsDigit(c) && Alternating(rest) && Maximal(rest) && rest[0] == "" && |rest| > 1
    ensures Alternating(["", [c] + rest[1]] + rest[2..]) && Maximal(["", [c] + rest[1]] + rest[2..])
  {
    var r := ["", [c] + rest[1]] + rest[2..];
    assert |r| == |rest|;
    forall i | 0 <= i < |r|
      ensures i > 1 ==> r[i] == rest[i]
      ensures i == 1 ==> r[i] != [] && AllDigits(r[i])
    {
      if i == 1 {
        assert AllDigits(rest[1]);
      }
    }
  }

  lemma ConsDigitExtendConcat(c: char, rest: seq<string>)
    requires |rest| > 1 && rest[0] == ""
    ensures Concat(["", [c] + rest[1]] + rest[2..]) == [c] + Concat(rest)
  {
    var d, t := [c] + rest[1], rest[2..];
    ConcatAfterEmpty(d, t);
    FirstTwo(rest);
    ConcatAfterEmpty(rest[1], t);
    AppendAssociative([c], rest[1], Concat(t));
  }

  lemma ConcatAfterEmpty(d: string, t: seq<string>)
    ensures Concat(["", d] + t) == d + Concat(t)
  {
    assert ["", d] + t == [""] + ([d] + t);
    ConcatCons("", [d] + t);
    ConcatCons(d, t);
  }

  /** A digit in front of a non-empty (or final) text run starts a new digit run. */
  lemma ConsDigitStart(c: char, rest: seq<string>)
    requires IsDigit(c) && Alternating(rest) && Maximal(rest) && (rest[0] != "" || |rest| == 1)
    ensures Alternating(["", [c]] + rest) && Maximal(["", [c]] + rest)
    ensures Concat(["", [c]] + rest) == [c] + Concat(rest)
  {
    ConsDigitStartRuns(c, rest);
    ConcatAfterEmpty([c], rest);
  }

  lemma ConsDigitStartRuns(c: char, rest: seq<string>)
    requires IsDigit(c) && Alternating(rest) && Maximal(rest) && (rest[0] != "" || |rest| == 1)
    ensures Alternating(["", [c]] + rest) && Maximal(["", [c]] + rest)
  {
    var r := ["", [c]] + rest;
    assert |r| == |rest| + 2;
    ModTwoShift(|rest|);
    forall i | 0 <= i < |r| && i % 2 == 0
      ensures NoDigits(r[i])
    {
      if i > 0 {
        assert r[i] == rest[i - 2] && (i - 2) % 2 == 0;
      }
    }
    forall i | 0 <= i < |r| && i % 2 == 1
      ensures r[i] != [] && AllDigits(r[i])
    {
      if i > 1 {
        assert r[i] == rest[i - 2] && (i - 2) % 2 == 1;
      }
    }
    forall i | 0 < i < |r| - 1 && i % 2 == 0
      ensures r[i] != []
    {
      assert r[i] == rest[i - 2] && (i - 2) % 2 == 0;
    }
  }

  /** `natural_keys`: `atoi` applied to every run of `SplitDigits`. */
  function NaturalKeys(text: string): (key: seq<Part>)
    ensures |key| == |SplitDigits(text)| && |key| % 2 == 1
    ensures forall i :: 0 <= i < |key| && i % 2 == 0 ==>
              key[i] == Text(SplitDigits(text)[i]) && NoDigits(key[i].s)
    ensures forall i :: 0 <= i < |key| && i % 2 == 1 ==>
              AllDigits(SplitDigits(text)[i]) && key[i] == Num(DigitsValue(SplitDigits(text)[i]))
  {
    var runs := SplitDigits(text);
    seq(|runs|, i requires 0 <= i < |runs| => Atoi(runs[i]))
  }

  /** Python's `<` on strings: code point by code point, a proper prefix first. */
  function TextLess(a: string, b: string): bool {
    if a == [] then b != []
    else if b == [] then false
    else if a[0] != b[0] then a[0] < b[0]
    else TextLess(a[1..], b[1..])
  }

  /**
   Python's `<` on two key elements. Keys produced by `NaturalKeys` only ever compare
   text with text and numbers with numbers (see `KeysAlignedKinds`); the mixed case is
   given a fixed answer so that the order is total.
   */
  function PartLess(x: Part, y: Part): bool {
    match (x, y)
    case (Text(a), Text(b)) => TextLess(a, b)
    case (Num(m), Num(n)) => m < n
    case (Text(_), Num(_)) => true
    case (Num(_), Text(_)) => false
  }

  /** Python's `<` on lists of key elements. */
  function KeyLess(a: seq<Part>, b: seq<Part>): bool {
    if a == [] then b != []
    else if b == [] then false
    else if a[0] != b[0] then PartLess(a[0], b[0])
    else KeyLess(a[1..], b[1..])
  }

  /** Two natural keys hold text at the same positions and numbers at the same positions. */
  lemma KeysAlignedKinds(x: string, y: string, i: nat)
    requires i < |NaturalKeys(x)| && i < |NaturalKeys(y)|
    ensures NaturalKeys(x)[i].Text? <==> NaturalKeys(y)[i].Text?
  {
  }

  lemma {:induction false} TextLessIrreflexive(a: string)
    ensures !TextLess(a, a)
  {
    if a != [] {
      TextLessIrreflexive(a[1..]);
    }
  }

  lemma {:induction false} TextLessTransitive(a: string, b: string, c: string)
    ensures TextLess(a, b) && TextLess(b, c) ==> TextLess(a, c)
  {
    if a != [] && b != [] && c != [] && a[0] == b[0] && b[0] == c[0] {
      TextLessTransitive(a[1..], b[1..], c[1..]);
    }
  }

  lemma {:induction false} TextLessTotal(a: string, b: string)
    ensures a != b ==> TextLess(a, b) || TextLess(b, a)
  {
    if a != [] && b != [] && a[0] == b[0] {
      assert a == [a[0]] + a[1..] && b == [b[0]] + b[1..];
      TextLessTotal(a[1..], b[1..]);
    }
  }

  lemma PartLessIrreflexive(x: Part)
    ensures !PartLess(x, x)
  {
    if x.Text? {
      TextLessIrreflexive(x.s);
    }
  }

  lemma PartLessTransitive(x: Part, y: Part, z: Part)
    ensures PartLess(x, y) && PartLess(y, z) ==> PartLess(x, z)
  {
    if x.Text? && y.Text? && z.Text? {
      TextLessTransitive(x.s, y.s, z.s);
    }
  }

  lemma PartLessTotal(x: Part, y: Part)
    ensures x != y ==> PartLess(x, y) || PartLess(y, x)
  {
    if x.Text? && y.Text? {
      TextLessTotal(x.s, y.s);
    }
  }

  /** Key comparison never holds of a key and itself. */
  lemma {:induction false} KeyLessIrreflexive(a: seq<Part>)
    ensures !KeyLess(a, a)
  {
    if a != [] {
      KeyLessIrreflexive(a[1..]);
    }
  }

  /** Key comparison is transitive. */
  lemma {:induction false} KeyLessTransitive(a: seq<Part>, b: seq<Part>, c: seq<Part>)
    ensures KeyLess(a, b) && KeyLess(b, c) ==> KeyLess(a, c)
  {
    if a != [] && b != [] && c != [] {
      if a[0] == b[0] && b[0] == c[0] {
        KeyLessTransitive(a[1..], b[1..], c[1..]);
      } else {
        PartLessIrreflexive(a[0]);
        PartLessTransitive(a[0], b[0], c[0]);
        PartLessTransitive(a[0], b[0], a[0]);
      }
    }
  }

  /** Any two different keys are ordered one way or the other. */
  lemma {:induction false} KeyLessTotal(a: seq<Part>, b: seq<Part>)
    ensures a != b ==> KeyLess(a, b) || KeyLess(b, a)
  {
    if a != [] && b != [] {
      if a[0] == b[0] {
        assert a == [a[0]] + a[1..] && b == [b[0]] + b[1..];
        KeyLessTotal(a[1..], b[1..]);
      } else {
        PartLessTotal(a[0], b[0]);
      }
    }
  }

  /** "Not below" is transitive too, as the order is total. */
  lemma KeyAtMostTransitive(a: seq<Part>, b: seq<Part>, c: seq<Part>)
    ensures !KeyLess(b, a) && !KeyLess(c, b) ==> !KeyLess(c, a)
  {
    KeyLessTotal(a, b);
    KeyLessTransitive(c, a, b);
  }

  /** A digit-free text is a single run. */
  lemma {:induction false} SplitOfText(q: string)
    requires NoDigits(q)
    ensures SplitDigits(q) == [q]
    decreases |q|
  {
    if q != [] {
      SplitOfText(q[1..]);
      assert [q[0]] + q[1..] == q;
    }
  }

  /** Digits followed by digit-free text split into one captured run between two texts. */
  lemma {:induction false} SplitOfDigitsThenText(d: string, q: string)
    requires d != [] && AllDigits(d) && NoDigits(q)
    ensures SplitDigits(d + q) == ["", d, q]
    decreases |d|
  {
    assert (d + q)[0] == d[0] && (d + q)[1..] == d[1..] + q;
    if |d| > 1 {
      SplitOfDigitsThenText(d[1..], q);
      assert [d[0]] + d[1..] == d;
    } else {
      assert d[1..] + q == q;
      SplitOfText(q);
      assert [d[0]] == d;
    }
  }

  /** A digit-free prefix is glued to the first run of what follows it. */
  lemma {:induction false} SplitOfNumbered(p: string, d: string, q: string)
    requires NoDigits(p) && d != [] && AllDigits(d) && NoDigits(q)
    ensures SplitDigits(p + d + q) == [p, d, q]
    decreases |p|
  {
    if p == [] {
      assert p + d + q == d + q;
      SplitOfDigitsThenText(d, q);
    } else {
      assert (p + d + q)[1..] == p[1..] + d + q;
      SplitOfNumbered(p[1..], d, q);
      assert [p[0]] + p[1..] == p;
    }
  }

  /** The key of "text, number, text": the first text, the number's value, the last text. */
  lemma NumberedNameKey(p: string, d: string, q: string)
    requires NoDigits(p) && d != [] && AllDigits(d) && NoDigits(q)
    ensures NaturalKeys(p + d + q) == [Text(p), Num(DigitsValue(d)), Text(q)]
  {
    SplitOfNumbered(p, d, q);
  }

  /**
   Names that share a digit-free stem are ordered by the value of their number,
   not by its characters: "Cam2" before "Cam10", "Cam1" before "Cam2".
   */
  lemma NumberedNamesOrder(p: string, d: string, e: string)
    requires NoDigits(p) && d != [] && AllDigits(d) && e != [] && AllDigits(e)
    requires DigitsValue(d) < DigitsValue(e)
    ensures KeyLess(NaturalKeys(p + d), NaturalKeys(p + e))
    ensures !KeyLess(NaturalKeys(p + e), NaturalKeys(p + d))
  {
    assert p + d + "" == p + d && p + e + "" == p + e;
    NumberedNameKey(p, d, "");
    NumberedNameKey(p, e, "");
    var kd, ke := NaturalKeys(p + d), NaturalKeys(p + e);
    assert kd[0] == ke[0];
    assert kd[1..][0] != ke[1..][0];
  }

  lemma CamTwoBeforeCamTen()
    ensures KeyLess(NaturalKeys("Cam2"), NaturalKeys("Cam10"))
    ensures KeyLess(NaturalKeys("Cam1"), NaturalKeys("Cam2"))
  {
    assert "Cam2" == "Cam" + "2" && "Cam10" == "Cam" + "10" && "Cam1" == "Cam" + "1";
    assert DigitsValue("10") == 10 by {
      assert "10"[..1] == "1";
    }
    NumberedNamesOrder("Cam", "2", "10");
    NumberedNamesOrder("Cam", "1", "2");
  }

  function DigitChar(d: nat): (c: char)
    requires d < 10
    ensures IsDigit(c) && c as int - '0' as int == d
  {
    ('0' as int + d) as char
  }

  /**
   Python's `str(n)` for a non-negative integer: the decimal digits without leading
   zeros. `int()` of the result gives `n` back.
   */
  function Decimal(n: nat): (s: string)
    ensures s != [] && AllDigits(s) && DigitsValue(s) == n
    ensures |s| > 1 ==> s[0] != '0'
  {
    if n < 10 then [DigitChar(n)]
    else
      var s := Decimal(n / 10) + [DigitChar(n % 10)];
      assert s[..|s| - 1] == Decimal(n / 10);
      s
  }
}
