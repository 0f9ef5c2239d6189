/** Extraction of the deploy directive from a commit message.

    The listener matches each message against `/#chefdeploy:([\w\-]+)/` and
    splits the capture on ",". Here the one pattern is a hand-written scanner:
    the leftmost position where the marker is followed by at least one name
    character, then the maximal run of name characters after the marker. */
module Directive {

  datatype Option<T> = None | Some(value: T)

  const MARKER: string := "#chefdeploy:"

  /** Ruby's `[\w\-]`: an ASCII letter, digit, underscore or hyphen. */
  predicate IsNameChar(c: char) {
    ('a' <= c <= 'z') || ('A' <= c <= 'Z') || ('0' <= c <= '9') || c == '_' || c == '-'
  }

  predicate IsName(s: string) {
    forall k :: 0 <= k < |s| ==> IsNameChar(s[k])
  }

  /** The pattern matches at `i`: the marker starts there and a name character follows it. */
  predicate MatchesAt(msg: string, i: int) {
    0 <= i && i + |MARKER| < |msg| && msg[i..i + |MARKER|] == MARKER && IsNameChar(msg[i + |MARKER|])
  }

  /** `i` is the position the regex engine reports: the leftmost match. */
  ghost predicate FirstMatch(msg: string, i: int) {
    MatchesAt(msg, i) && forall j :: 0 <= j < i ==> !MatchesAt(msg, j)
  }

  /** `name` is the non-empty maximal run of name characters starting at `j`. */
  ghost predicate MaximalRunAt(msg: string, j: nat, name: string) {
    |name| > 0 && j + |name| <= |msg| && msg[j..j + |name|] == name && IsName(name) &&
    (j + |name| == |msg| || !IsNameChar(msg[j + |name|]))
  }

  /** Scans from `from` for the leftmost position where the pattern matches. */
  function FindDirective(msg: string, from: nat): (r: Option<nat>)
    requires from <= |msg|
    ensures r.Some? ==> from <= r.value && MatchesAt(msg, r.value)
    ensures forall i :: from <= i && (r.None? || i < r.value) ==> !MatchesAt(msg, i)
    decreases |msg| - from
  {
    if from + |MARKER| >= |msg| then None
    else if MatchesAt(msg, from) then Some(from)
    else FindDirective(msg, from + 1)
  }

  /** Length of the greedy run of name characters starting at `j`. */
  function NameRunLength(msg: string, j: nat): (n: nat)
    requires j <= |msg|
    ensures j + n <= |msg|
    ensures forall k :: j <= k < j + n ==> IsNameChar(msg[k])
    ensures j + n == |msg| || !IsNameChar(msg[j + n])
    decreases |msg| - j
  {
    if j < |msg| && IsNameChar(msg[j]) then 1 + NameRunLength(msg, j + 1) else 0
  }

  /** The regex's capture group `$1`, or None when the message does not match. */
  function Capture(msg: string): (r: Option<string>)
    ensures r.Some? ==> |r.value| > 0 && IsName(r.value)
  {
    match FindDirective(msg, 0)
    case None => None
    case Some(i) =>
      var start := i + |MARKER|;
      assert IsNameChar(msg[start]);
      Some(msg[start..start + NameRunLength(msg, start)])
  }

  /** A maximal run is exactly as long as the greedy scan says. */
  lemma {:induction false} MaximalRunIsGreedy(msg: string, j: nat, name: string)
    requires MaximalRunAt(msg, j, name)
    ensures NameRunLength(msg, j) == |name|
    decreases |name|
  {
    assert IsNameChar(msg[j]) by { assert msg[j] == name[0]; }
    if |name| > 1 {
      assert msg[j + 1..j + 1 + |name[1..]|] == name[1..];
      MaximalRunIsGreedy(msg, j + 1, name[1..]);
    }
  }

  /** The capture is None exactly when the pattern matches nowhere. */
  lemma CaptureNoneIff(msg: string)
    ensures Capture(msg).None? <==> forall i :: !MatchesAt(msg, i)
  {
  }

  /** Wherever the leftmost match is, the capture is the maximal run after it. */
  lemma CaptureAtFirstMatch(msg: string, i: int)
    requires FirstMatch(msg, i)
    ensures Capture(msg).Some?
    ensures MaximalRunAt(msg, i + |MARKER|, Capture(msg).value)
  {
    var r := FindDirective(msg, 0);
    assert r == Some(i);
    var start := i + |MARKER|;
    assert IsNameChar(msg[start]);
    assert Capture(msg).value == msg[start..start + NameRunLength(msg, start)];
  }

  /** Any maximal run after the leftmost match is the capture. */
  lemma FirstMatchRunIsCapture(msg: string, i: int, name: string)
    requires FirstMatch(msg, i) && MaximalRunAt(msg, i + |MARKER|, name)
    ensures Capture(msg) == Some(name)
  {
    CaptureAtFirstMatch(msg, i);
    MaximalRunIsGreedy(msg, i + |MARKER|, name);
    MaximalRunIsGreedy(msg, i + |MARKER|, Capture(msg).value);
  }

  /** The capture is the maximal name run after the FIRST qualifying marker;
      both directions, so later markers can never be the source of the capture. */
  lemma CaptureSomeIff(msg: string, name: string)
    ensures Capture(msg) == Some(name) <==>
            exists i :: FirstMatch(msg, i) && MaximalRunAt(msg, i + |MARKER|, name)
  {
    if Capture(msg) == Some(name) {
      var i := FindDirective(msg, 0).value;
      assert FirstMatch(msg, i);
      CaptureAtFirstMatch(msg, i);
    }
    forall i | FirstMatch(msg, i) && MaximalRunAt(msg, i + |MARKER|, name)
      ensures Capture(msg) == Some(name)
    {
      FirstMatchRunIsCapture(msg, i, name);
    }
  }

  /** The character class excludes ',', so the capture never contains one. */
  lemma CaptureHasNoComma(msg: string)
    requires Capture(msg).Some?
    ensures |Capture(msg).value| > 0 && ',' !in Capture(msg).value
  {
  }

  /** Whether the pattern matches at `j` depends only on the text up to the
      character after the marker. */
  lemma MatchesAtOnPrefix(msg: string, rest: string, j: int)
    requires 0 <= j && j + |MARKER| < |msg|
    ensures MatchesAt(msg + rest, j) == MatchesAt(msg, j)
  {
    assert (msg + rest)[j..j + |MARKER|] == msg[j..j + |MARKER|];
  }

  /** Text after a complete directive is ignored: once a message carries a
      match whose name run is ended by a non-name character, appending
      anything (another directive included) leaves the capture unchanged. */
  lemma LaterTextIgnored(msg: string, rest: string)
    requires Capture(msg).Some?
    requires |msg| > 0 && !IsNameChar(msg[|msg| - 1])
    ensures Capture(msg + rest) == Capture(msg)
  {
    var i := FindDirective(msg, 0).value;
    assert FirstMatch(msg, i);
    CaptureAtFirstMatch(msg, i);
    var name := Capture(msg).value;
    var start := i + |MARKER|;
    var full := msg + rest;
    assert start + |name| < |msg|;
    MatchesAtOnPrefix(msg, rest, i);
    forall j | 0 <= j < i
      ensures !MatchesAt(full, j)
    {
      MatchesAtOnPrefix(msg, rest, j);
    }
    assert FirstMatch(full, i);
    assert full[start..start + |name|] == msg[start..start + |name|];
    assert full[start + |name|] == msg[start + |name|];
    FirstMatchRunIsCapture(full, i, name);
  }

  // ---- Ruby's String#split(",") ----

  /** Every comma-separated field, empty ones included. */
  function Fields(s: string): (r: seq<string>)
    ensures |r| >= 1
    ensures forall k :: 0 <= k < |r| ==> ',' !in r[k]
    decreases |s|
  {
    if s == [] then [[]]
    else
      var rest := Fields(s[1..]);
      if s[0] == ',' then [[]] + rest
      else [[s[0]] + rest[0]] + rest[1..]
  }

  /** Joins fields with ","; the inverse of Fields. */
  function JoinComma(fields: seq<string>): string
  {
    if |fields| == 0 then []
    else if |fields| == 1 then fields[0]
    else fields[0] + "," + JoinComma(fields[1..])
  }

  lemma {:induction false} JoinFields(s: string)
    ensures JoinComma(Fields(s)) == s
    decreases |s|
  {
    if s != [] {
      JoinFields(s[1..]);
      var rest := Fields(s[1..]);
      if s[0] == ',' {
        assert s == "," + s[1..];
      } else if |rest| == 1 {
        assert s == [s[0]] + s[1..];
      } else {
        assert JoinComma(rest) == rest[0] + "," + JoinComma(rest[1..]);
        assert s == [s[0]] + s[1..];
      }
    }
  }

  lemma {:induction false} FieldsWithoutComma(s: string)
    requires ',' !in s
    ensures Fields(s) == [s]
    decreases |s|
  {
    if s != [] {
      FieldsWithoutComma(s[1..]);
      assert s == [s[0]] + s[1..];
    }
  }

  function DropTrailingEmpty(fields: seq<string>): seq<string>
    decreases |fields|
  {
    if fields != [] && fields[|fields| - 1] == [] then DropTrailingEmpty(fields[..|fields| - 1])
    else fields
  }

  /** `s.split(",")`: the fields, with trailing empty fields removed. The
      result is a prefix of the fields, the fields it leaves out are all
      empty, and it never ends in an empty field. */
  function Split(s: string): (r: seq<string>)
    ensures r <= Fields(s)
    ensures forall k :: |r| <= k < |Fields(s)| ==> Fields(s)[k] == []
    ensures r == [] || r[|r| - 1] != []
    ensures forall k :: 0 <= k < |r| ==> ',' !in r[k]
  {
    DropTrailingEmptyShape(Fields(s));
    DropTrailingEmpty(Fields(s))
  }

  lemma {:induction false} DropTrailingEmptyShape(fields: seq<string>)
    ensures DropTrailingEmpty(fields) <= fields
    ensures DropTrailingEmpty(fields) == [] || DropTrailingEmpty(fields)[|DropTrailingEmpty(fields)| - 1] != []
    ensures forall k :: |DropTrailingEmpty(fields)| <= k < |fields| ==> fields[k] == []
    decreases |fields|
  {
    if fields != [] && fields[|fields| - 1] == [] {
      DropTrailingEmptyShape(fields[..|fields| - 1]);
    }
  }

  /** A string without a comma splits into itself alone (nothing, if empty). */
  lemma SplitWithoutComma(s: string)
    requires ',' !in s
    ensures Split(s) == if s == [] then [] else [s]
  {
    FieldsWithoutComma(s);
  }

  /** The cookbook names one commit message asks for: `$1.split(",")`, or
      none. The split is dead code: a matching message names exactly one
      cookbook, the capture itself. */
  function CommitCookbooks(msg: string): (r: seq<string>)
    ensures r == match Capture(msg) case None => [] case Some(c) => [c]
    ensures |r| <= 1
  {
    match Capture(msg)
    case None => []
    case Some(c) =>
      CaptureHasNoComma(msg);
      SplitWithoutComma(c);
      Split(c)
  }

  /** A directive listing two cookbooks deploys only the first. */
  lemma CommaListYieldsFirstName()
    ensures CommitCookbooks("release #chefdeploy:base,common") == ["base"]
  {
    var msg := "release #chefdeploy:base,common";
    forall j | 0 <= j < 8
      ensures !MatchesAt(msg, j)
    {
      assert msg[j] != '#';
      assert msg[j..j + |MARKER|][0] == msg[j];
    }
    assert msg == "release " + MARKER + "base,common";
    assert msg[8..20] == MARKER;
    assert FirstMatch(msg, 8);
    assert msg[20..24] == "base";
    assert MaximalRunAt(msg, 20, "base");
    FirstMatchRunIsCapture(msg, 8, "base");
  }
}
