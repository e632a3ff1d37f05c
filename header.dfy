/** The student header (components/student-view/header.jsx): the avatar initials and the active nav link. */
module Header {
  import opened Wrappers
  import opened Seqs
  import opened Text

  /** `parts.map(n => n[0]).join("")`: an empty part gives `undefined`, which `join` writes as nothing. */
  function FirstChars(parts: seq<string>): (r: string)
    ensures |r| <= |parts|
  {
    if parts == [] then ""
    else (if parts[0] == "" then "" else [parts[0][0]]) + FirstChars(parts[1..])
  }

  predicate NonEmpty(p: string) { p != "" }

  /** The first character of each of `parts`, all of them non-empty. */
  function Heads(parts: seq<string>): (r: string)
    requires forall p :: p in parts ==> p != ""
    ensures |r| == |parts|
  {
    seq(|parts|, i requires 0 <= i < |parts| => assert parts[i] in parts; parts[i][0])
  }

  /**
   * `userInitials` (31-37): "ST" unless the user has a non-empty `name`; otherwise the first
   * character of every space-separated part, upper-cased.
   */
  function UserInitials(name: Option<string>): (r: string)
    ensures name.None? || name.value == "" ==> r == "ST"
    ensures name.Some? && name.value != "" ==>
      r == ToUpper(Heads(Filter(Split(name.value, ' '), NonEmpty))) && |r| <= |name.value|
  {
    match name
    case None => "ST"
    case Some(n) =>
      if n == "" then "ST"
      else
        InitialsAreHeads(Split(n, ' '));
        InitialsNoLongerThanName(n);
        ToUpper(FirstChars(Split(n, ' ')))
  }

  /** Empty parts contribute nothing: the initials are the heads of the non-empty parts. */
  lemma {:induction false} InitialsAreHeads(parts: seq<string>)
    ensures FirstChars(parts) == Heads(Filter(parts, NonEmpty))
  {
    if parts != [] {
      InitialsAreHeads(parts[1..]);
      var rest := Filter(parts[1..], NonEmpty);
      if parts[0] != "" {
        assert Filter(parts, NonEmpty) == [parts[0]] + rest;
        HeadsCons(parts[0], rest);
      } else {
        assert Filter(parts, NonEmpty) == rest;
      }
    }
  }

  lemma HeadsCons(p: string, rest: seq<string>)
    requires p != "" && forall q :: q in rest ==> q != ""
    ensures Heads([p] + rest) == [p[0]] + Heads(rest)
  {
    var h := Heads([p] + rest);
    assert forall i :: 0 <= i < |rest| ==> ([p] + rest)[i + 1] == rest[i];
  }

  /** There are never more initials than characters in the name. */
  lemma {:induction false} InitialsNoLongerThanName(s: string)
    ensures |FirstChars(Split(s, ' '))| <= |s|
  {
    if s != [] {
      InitialsNoLongerThanName(s[1..]);
      var rest := Split(s[1..], ' ');
      if s[0] == ' ' {
        assert Split(s, ' ')[1..] == rest;
      } else {
        var first := [s[0]] + rest[0];
        assert Split(s, ' ') == [first] + rest[1..];
        assert FirstChars(Split(s, ' ')) == [s[0]] + FirstChars(rest[1..]);
        assert FirstChars(rest) == (if rest[0] == "" then "" else [rest[0][0]]) + FirstChars(rest[1..]);
      }
    }
  }

  /** A space-free name gives one initial: its first letter. */
  lemma SingleWordName(n: string)
    requires n != "" && ' ' !in n
    ensures UserInitials(Some(n)) == [UpperChar(n[0])]
  {
    SplitJoin([n], ' ');
    assert Split(n, ' ') == [n];
    assert Filter([n], NonEmpty) == [n];
  }

  /** The nav-link test (68-70, 193-195): the current path contains the link's href. */
  predicate IsActive(pathname: string, href: string)
    ensures IsActive(pathname, href) ==> |href| <= |pathname|
    ensures href == "" ==> IsActive(pathname, href)
  {
    ContainsEmpty(pathname);
    Contains(pathname, href)
  }

  /**
   * A path is active for a link exactly when the href appears in it somewhere: any path that
   * holds the href, at its start or further in, is active, and a path shorter than the href is not.
   */
  lemma ActiveLinks(before: string, href: string, after: string, pathname: string)
    ensures IsActive(before + href + after, href)
    ensures |pathname| < |href| ==> !IsActive(pathname, href)
  {
    var p := before + href + after;
    assert p[|before|..|before| + |href|] == href;
    assert OccursAt(p, href, |before|);
  }
}
