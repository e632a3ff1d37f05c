/**
 * String operations the views rely on: `toLowerCase`/`toUpperCase` (restricted to ASCII),
 * `includes`, `startsWith`, `split` on one character and `join`.
 */
module Text {

  function LowerChar(c: char): char {
    if 'A' <= c <= 'Z' then (c as int + 32) as char else c
  }

  function UpperChar(c: char): char {
    if 'a' <= c <= 'z' then (c as int - 32) as char else c
  }

  /** `s.toLowerCase()` on ASCII letters; every other character is kept. */
  function ToLower(s: string): (r: string)
    ensures |r| == |s|
  {
    seq(|s|, i requires 0 <= i < |s| => LowerChar(s[i]))
  }

  /** `s.toUpperCase()` on ASCII letters; every other character is kept. */
  function ToUpper(s: string): (r: string)
    ensures |r| == |s|
  {
    seq(|s|, i requires 0 <= i < |s| => UpperChar(s[i]))
  }

  /** `t` occurs in `s` starting at position `i`. */
  predicate OccursAt(s: string, t: string, i: nat) {
    i + |t| <= |s| && s[i..i + |t|] == t
  }

  /** `s.includes(t)`: `t` occurs in `s` as a contiguous block. */
  predicate Contains(s: string, t: string) {
    exists i: nat | i <= |s| :: OccursAt(s, t, i)
  }

  /** `a.toLowerCase().includes(b.toLowerCase())`. */
  predicate ContainsIgnoringCase(a: string, b: string) {
    Contains(ToLower(a), ToLower(b))
  }

  /** `s.startsWith(p)`. */
  predicate StartsWith(s: string, p: string) {
    p <= s
  }

  lemma ContainsEmpty(s: string)
    ensures Contains(s, "")
  {
    assert OccursAt(s, "", 0);
  }

  lemma ContainsSelf(s: string)
    ensures Contains(s, s)
  {
    assert OccursAt(s, s, 0);
  }

  lemma ContainsIgnoringCaseEmpty(s: string)
    ensures ContainsIgnoringCase(s, "")
  {
    ContainsEmpty(ToLower(s));
  }

  function DigitChar(d: int): char
    requires 0 <= d < 10
  {
    ('0' as int + d) as char
  }

  /** The decimal numeral of `n`, as a template literal `${n}` writes it. */
  function NatToString(n: nat): (r: string)
    ensures |r| >= 1
    ensures forall i :: 0 <= i < |r| ==> '0' <= r[i] <= '9'
  {
    if n < 10 then [DigitChar(n)] else NatToString(n / 10) + [DigitChar(n % 10)]
  }

  /** `parts.join(sep)`. */
  function Join(parts: seq<string>, sep: string): string
  {
    if |parts| == 0 then ""
    else if |parts| == 1 then parts[0]
    else parts[0] + sep + Join(parts[1..], sep)
  }

  /** `s.split(c)` for a one-character separator: never empty, and `"".split(c)` is `[""]`. */
  function Split(s: string, c: char): (r: seq<string>)
    ensures |r| >= 1
  {
    if s == [] then [""]
    else if s[0] == c then [""] + Split(s[1..], c)
    else
      var rest := Split(s[1..], c);
      [[s[0]] + rest[0]] + rest[1..]
  }

  lemma JoinCons(p: string, rest: seq<string>, sep: string)
    requires |rest| >= 1
    ensures Join([p] + rest, sep) == p + sep + Join(rest, sep)
  {
    assert ([p] + rest)[1..] == rest;
  }

  /** Extending the first piece by a prefix extends the joined string by that prefix. */
  lemma JoinExtendFirst(x: string, rest: seq<string>, sep: string)
    requires |rest| >= 1
    ensures Join([x + rest[0]] + rest[1..], sep) == x + Join(rest, sep)
  {
    if |rest| > 1 {
      JoinCons(x + rest[0], rest[1..], sep);
      assert rest == [rest[0]] + rest[1..];
      JoinCons(rest[0], rest[1..], sep);
    }
  }

  /** Joining the pieces of a split with the same separator gives back the string. */
  lemma {:induction false} JoinSplit(s: string, c: char)
    ensures Join(Split(s, c), [c]) == s
  {
    if s != [] {
      var rest := Split(s[1..], c);
      JoinSplit(s[1..], c);
      if s[0] == c {
        JoinCons("", rest, [c]);
      } else {
        assert Split(s, c) == [[s[0]] + rest[0]] + rest[1..];
        JoinExtendFirst([s[0]], rest, [c]);
      }
      assert s == [s[0]] + s[1..];
    }
  }

  lemma {:induction false} SplitNoSeparatorPrefix(a: string, rest: string, c: char)
    requires c !in a
    ensures Split(a + rest, c) == [a + Split(rest, c)[0]] + Split(rest, c)[1..]
  {
    if a == [] {
      assert a + rest == rest;
      assert a + Split(rest, c)[0] == Split(rest, c)[0];
      assert [Split(rest, c)[0]] + Split(rest, c)[1..] == Split(rest, c);
    } else {
      assert (a + rest)[0] == a[0] && (a + rest)[1..] == a[1..] + rest;
      SplitNoSeparatorPrefix(a[1..], rest, c);
      assert [a[0]] + (a[1..] + Split(rest, c)[0]) == a + Split(rest, c)[0];
    }
  }

  /** Splitting a join gives back the pieces, provided none of them contains the separator. */
  lemma {:induction false} SplitJoin(parts: seq<string>, c: char)
    requires |parts| >= 1
    requires forall i :: 0 <= i < |parts| ==> c !in parts[i]
    ensures Split(Join(parts, [c]), c) == parts
  {
    if |parts| == 1 {
      SplitNoSeparatorPrefix(parts[0], "", c);
      assert parts[0] + "" == parts[0];
    } else {
      SplitJoin(parts[1..], c);
      var tail := Join(parts[1..], [c]);
      assert Join(parts, [c]) == parts[0] + ([c] + tail);
      SplitNoSeparatorPrefix(parts[0], [c] + tail, c);
      assert ([c] + tail)[0] == c && ([c] + tail)[1..] == tail;
      assert Split([c] + tail, c) == [""] + parts[1..];
      assert parts[0] + "" == parts[0];
      assert parts == [parts[0]] + parts[1..];
    }
  }
}
