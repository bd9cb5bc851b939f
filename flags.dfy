/** getFlagKey of utils/generic.js, with the command-line arguments passed in
    instead of read from `global.args`. */
module Flags {
  import opened Wrappers
  import opened Text

  /** The position of the first `c` in `s`. */
  function IndexOf(s: string, c: char): (i: nat)
    requires c in s
    ensures i < |s| && s[i] == c && c !in s[..i]
  {
    if s[0] == c then 0
    else
      assert s == [s[0]] + s[1..];
      var j := IndexOf(s[1..], c);
      assert s[..j + 1] == [s[0]] + s[1..][..j];
      j + 1
  }

  /** `s.split(sep)`: the pieces between the separators, at least one. */
  function Split(s: string, sep: char): (parts: seq<string>)
    ensures |parts| >= 1
    decreases |s|
  {
    if sep !in s then [s]
    else
      var i := IndexOf(s, sep);
      [s[..i]] + Split(s[i + 1..], sep)
  }

  /** `parts.join(sep)` */
  function Join(parts: seq<string>, sep: char): string
  {
    if |parts| == 0 then ""
    else if |parts| == 1 then parts[0]
    else parts[0] + [sep] + Join(parts[1..], sep)
  }

  /** `args.find((arg) => arg.startsWith(prefix))` */
  function FindFirst(args: seq<string>, prefix: string): (r: Option<string>)
    ensures r.None? <==> forall i :: 0 <= i < |args| ==> !StartsWith(args[i], prefix)
    ensures r.Some? ==> exists i :: 0 <= i < |args| && args[i] == r.value && StartsWith(r.value, prefix) &&
                                  (forall j :: 0 <= j < i ==> !StartsWith(args[j], prefix))
  {
    if args == [] then None
    else if StartsWith(args[0], prefix) then Some(args[0])
    else
      var r := FindFirst(args[1..], prefix);
      assert forall i :: 1 <= i < |args| ==> args[i] == args[1..][i - 1];
      r
  }

  /** getFlagKey: the first argument starting with `property`, with everything up
      to and including its first ':' removed; "" when there is no such argument. */
  function GetFlagKey(args: seq<string>, property: string): (key: string)
  {
    match FindFirst(args, property)
    case None => ""
    case Some(flag) => if flag == "" then "" else Join(Split(flag, ':')[1..], ':')
  }

  /** What follows the first ':' of `s`, or "" when there is none. */
  function AfterFirstColon(s: string): string
  {
    if ':' in s then s[IndexOf(s, ':') + 1..] else ""
  }

  /** Splitting and joining again gives the text back. */
  lemma {:induction false} JoinSplit(s: string, sep: char)
    ensures Join(Split(s, sep), sep) == s
    decreases |s|
  {
    if sep in s {
      var i := IndexOf(s, sep);
      var rest := s[i + 1..];
      JoinSplit(rest, sep);
      assert s == s[..i] + [sep] + rest;
    }
  }

  /** Dropping the first piece and joining the rest keeps the later separators. */
  lemma {:induction false} AfterFirstColonIsRest(s: string)
    ensures Join(Split(s, ':')[1..], ':') == AfterFirstColon(s)
  {
    var parts := Split(s, ':');
    if ':' in s {
      var i := IndexOf(s, ':');
      var rest := s[i + 1..];
      assert parts == [s[..i]] + Split(rest, ':');
      assert parts[1..] == Split(rest, ':');
      JoinSplit(rest, ':');
    } else {
      assert parts == [s];
    }
  }

  /** The first ':' is the one at `i` when none comes before it. */
  lemma {:induction false} AfterFirstColonAt(s: string, i: nat)
    requires i < |s| && s[i] == ':'
    requires forall j :: 0 <= j < i ==> s[j] != ':'
    ensures AfterFirstColon(s) == s[i + 1..]
  {
    var k := IndexOf(s, ':');
    var before := s[..k];
    assert forall j :: 0 <= j < |before| ==> before[j] == s[j];
  }

  /** The contract of getFlagKey: "" without a match; otherwise the text after the
      first ':' of the first matching argument, "" when that argument has no ':'. */
  lemma {:induction false} GetFlagKeySpec(args: seq<string>, property: string)
    ensures (forall i :: 0 <= i < |args| ==> !StartsWith(args[i], property)) ==> GetFlagKey(args, property) == ""
    ensures forall i :: (0 <= i < |args| && StartsWith(args[i], property) &&
                         (forall j :: 0 <= j < i ==> !StartsWith(args[j], property))) ==>
                        GetFlagKey(args, property) == AfterFirstColon(args[i])
  {
    var r := FindFirst(args, property);
    if r.Some? {
      AfterFirstColonIsRest(r.value);
      forall i | 0 <= i < |args| && StartsWith(args[i], property) &&
        (forall j :: 0 <= j < i ==> !StartsWith(args[j], property))
        ensures args[i] == r.value
      {
        var k :| 0 <= k < |args| && args[k] == r.value && StartsWith(r.value, property) &&
                 (forall j :: 0 <= j < k ==> !StartsWith(args[j], property));
        assert !(k < i) && !(i < k);
      }
    }
  }

  /** The value of a flag given where its first argument and that argument's first
      ':' are. */
  lemma {:induction false} FlagAt(args: seq<string>, property: string, i: nat, colon: nat)
    requires i < |args| && StartsWith(args[i], property)
    requires forall j :: 0 <= j < i ==> !StartsWith(args[j], property)
    requires colon < |args[i]| && args[i][colon] == ':' && forall j :: 0 <= j < colon ==> args[i][j] != ':'
    ensures GetFlagKey(args, property) == args[i][colon + 1..]
  {
    GetFlagKeySpec(args, property);
    AfterFirstColonAt(args[i], colon);
  }

  /** Matching is by prefix. */
  lemma {:induction false} PrefixExample()
    ensures GetFlagKey(["--database:x"], "--data") == "x"
  {
    FlagAt(["--database:x"], "--data", 0, 10);
  }

  /** A later ':' is kept verbatim. */
  lemma {:induction false} LaterColonExample()
    ensures GetFlagKey(["--data:a:b"], "--data") == "a:b"
  {
    FlagAt(["--data:a:b"], "--data", 0, 6);
  }

  lemma {:induction false} NoColonExample()
    ensures GetFlagKey(["--data"], "--data") == ""
  {
    var a := "--data";
    GetFlagKeySpec([a], "--data");
    assert forall j :: 0 <= j < |a| ==> a[j] != ':';
  }

  /** Only the first matching argument is read. */
  lemma {:induction false} FirstMatchExample()
    ensures GetFlagKey(["--csv:first", "--csv:second"], "--csv") == "first"
  {
    FlagAt(["--csv:first", "--csv:second"], "--csv", 0, 5);
  }
}
