/** String operations of the source, character by character. */
module Text {
  function LowerChar(c: char): char {
    if 'A' <= c <= 'Z' then (c as int + 32) as char else c
  }

  function Lower(s: string): string {
    seq(|s|, i requires 0 <= i < |s| => LowerChar(s[i]))
  }

  predicate OccursAt(s: string, part: string, i: nat) {
    i + |part| <= |s| && s[i..i + |part|] == part
  }

  predicate Contains(s: string, part: string) {
    exists i | 0 <= i <= |s| :: OccursAt(s, part, i)
  }

  /** `c` is `d`, or `d` in capitals. */
  predicate IsCaseOf(c: char, d: char) {
    c == d || ('A' <= c <= 'Z' && 'a' <= d <= 'z' && c as int - 'A' as int == d as int - 'a' as int)
  }

  /** `part` stands in `s` from `i` on, in any letter case. */
  predicate SpelledAt(s: string, part: string, i: nat) {
    i + |part| <= |s| && forall k | 0 <= k < |part| :: IsCaseOf(s[i + k], part[k])
  }

  /** Looking for a part in lower case in the lowered text. */
  lemma LowerContains(s: string, part: string)
    requires forall k | 0 <= k < |part| :: !('A' <= part[k] <= 'Z')
    ensures Contains(Lower(s), part) <==> exists i | 0 <= i <= |s| :: SpelledAt(s, part, i)
  {
    forall i | 0 <= i <= |s| ensures OccursAt(Lower(s), part, i) <==> SpelledAt(s, part, i) {
      if i + |part| <= |s| {
        var there := Lower(s)[i..i + |part|];
        assert forall k | 0 <= k < |part| :: there[k] == LowerChar(s[i + k]);
        assert forall k | 0 <= k < |part| :: there[k] == part[k] <==> IsCaseOf(s[i + k], part[k]);
      }
    }
  }

  predicate IsDigit(c: char) { '0' <= c <= '9' }

  /** int() on word characters: digits, single underscores between them. */
  predicate IsInt(s: string) {
    && s != "" && IsDigit(s[0]) && IsDigit(s[|s| - 1])
    && (forall i | 0 <= i < |s| :: IsDigit(s[i]) || s[i] == '_')
    && (forall i | 0 <= i < |s| - 1 :: !(s[i] == '_' && s[i + 1] == '_'))
  }

  function Digits(s: string): nat {
    if s == "" then 0
    else if IsDigit(s[|s| - 1]) then 10 * Digits(s[..|s| - 1]) + (s[|s| - 1] as int - '0' as int)
    else Digits(s[..|s| - 1])
  }

  function Decimal(n: nat): (s: string)
    ensures s != "" && forall i | 0 <= i < |s| :: IsDigit(s[i])
  {
    if n < 10 then [(n + '0' as int) as char] else Decimal(n / 10) + [(n % 10 + '0' as int) as char]
  }

  lemma {:induction false} DecimalParses(n: nat)
    ensures IsInt(Decimal(n)) && Digits(Decimal(n)) == n
  {
    if n >= 10 {
      DecimalParses(n / 10);
      assert Decimal(n)[..|Decimal(n)| - 1] == Decimal(n / 10);
    } else {
      assert Decimal(n)[..0] == "";
    }
  }

  /** The numerals are decimal. */
  lemma TenIsWritten()
    ensures Decimal(10) == "10" && Digits("10") == 10
  {
    assert Decimal(1) == "1" && Decimal(0) == "0" && "1" + "0" == "10";
    DecimalParses(10);
  }

  /** What int() takes of word characters: digits in groups, with one underscore between groups. */
  lemma {:induction false} IsIntIff(s: string)
    ensures IsInt(s) <==> forall part | part in Split(s, '_') :: IsNumeral(part)
    decreases |s|
  {
    var i := Find(s, '_');
    if i < |s| {
      var a, rest := s[..i], s[i + 1..];
      IsIntIff(rest);
      IntParts(s, i);
      assert Split(s, '_') == [a] + Split(rest, '_');
      assert ([a] + Split(rest, '_'))[0] == a;
      assert forall part :: part in Split(s, '_') <==> part == a || part in Split(rest, '_');
    } else {
      assert Split(s, '_') == [s] && [s][0] == s;
      assert forall k | 0 <= k < |s| :: s[k] != '_';
      assert IsInt(s) <==> IsNumeral(s);
    }
  }

  predicate IsNumeral(part: string) {
    part != "" && forall i | 0 <= i < |part| :: '0' <= part[i] <= '9'
  }

  lemma IntParts(s: string, i: nat)
    requires i < |s| && s[i] == '_' && forall k | 0 <= k < i :: s[k] != '_'
    ensures IsInt(s) <==> IsNumeral(s[..i]) && IsInt(s[i + 1..])
  {
    var a, rest := s[..i], s[i + 1..];
    assert forall k | i < k < |s| :: s[k] == rest[k - i - 1];
    assert forall k | 0 <= k < i :: a[k] == s[k];
    if IsInt(s) {
      assert i > 0 && i < |s| - 1 && s[i + 1] != '_';
    }
    if IsNumeral(a) && IsInt(rest) {
      forall k | 0 <= k < |s| - 1 ensures !(s[k] == '_' && s[k + 1] == '_') {
        if k > i { assert rest[k - i - 1] == s[k] && rest[k - i] == s[k + 1]; }
      }
    }
  }

  /** Its value: the digits alone. */
  function Unscored(s: string): string {
    if s == "" then "" else (if s[0] == '_' then "" else [s[0]]) + Unscored(s[1..])
  }

  lemma {:induction false} UnscoredLast(s: string, c: char)
    ensures Unscored(s + [c]) == Unscored(s) + if c == '_' then "" else [c]
  {
    if s == "" {
      assert "" + [c] == [c] && [c][1..] == "";
    } else {
      assert (s + [c])[1..] == s[1..] + [c];
      UnscoredLast(s[1..], c);
    }
  }

  lemma {:induction false} DigitsUnscored(s: string)
    requires forall i | 0 <= i < |s| :: IsDigit(s[i]) || s[i] == '_'
    ensures Digits(s) == Digits(Unscored(s))
    decreases |s|
  {
    if s != "" {
      var before, c := s[..|s| - 1], s[|s| - 1];
      DigitsUnscored(before);
      UnscoredLast(before, c);
      assert before + [c] == s;
      if c != '_' { assert (Unscored(before) + [c])[..|Unscored(before)|] == Unscored(before); } else { assert Unscored(before) + "" == Unscored(before); }
    }
  }

  predicate IsSpace(c: char) {
    c == ' ' || '\t' <= c <= '\r'
  }

  function StripLeft(s: string): string {
    if s != "" && IsSpace(s[0]) then StripLeft(s[1..]) else s
  }

  function StripRight(s: string): string {
    if s != "" && IsSpace(s[|s| - 1]) then StripRight(s[..|s| - 1]) else s
  }

  function Strip(s: string): string {
    StripRight(StripLeft(s))
  }

  /** The index of the first `c`, or the length. */
  function Find(s: string, c: char): (i: nat)
    ensures i <= |s| && (i < |s| ==> s[i] == c) && forall k | 0 <= k < i :: s[k] != c
  {
    if s == "" || s[0] == c then 0
    else
      var i := Find(s[1..], c);
      assert forall k | 0 < k < i + 1 :: s[k] == s[1..][k - 1];
      i + 1
  }

  function Split(s: string, c: char): (parts: seq<string>)
    ensures parts != []
    decreases |s|
  {
    var i := Find(s, c);
    if i == |s| then [s] else [s[..i]] + Split(s[i + 1..], c)
  }

  lemma FindIs(a: string, c: char, rest: string)
    requires c !in a && (rest == "" || rest[0] == c)
    ensures Find(a + rest, c) == |a|
  {
    var i := Find(a + rest, c);
    assert forall k | 0 <= k < |a| :: (a + rest)[k] == a[k];
    assert rest != "" ==> (a + rest)[|a|] == c;
  }

  lemma SplitOne(a: string, c: char)
    requires c !in a
    ensures Split(a, c) == [a]
  {
    FindIs(a, c, "");
    assert a + "" == a;
  }

  lemma SplitNext(a: string, c: char, rest: string)
    requires c !in a
    ensures Split(a + ([c] + rest), c) == [a] + Split(rest, c)
  {
    var s := a + ([c] + rest);
    FindIs(a, c, [c] + rest);
    assert s[..|a|] == a && s[|a| + 1..] == rest;
  }
}
