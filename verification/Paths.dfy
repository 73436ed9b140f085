/** Database paths: how a string is parsed into segments and printed back. */
module Paths {
  import opened Wrappers
  import Text

  datatype PathError = EmptySegment

  /** What parsing returns: the pieces between slashes once leading and trailing slashes are off. */
  function Normalized(path: string): Result<seq<string>, PathError> {
    var trimmed := Text.Trim(path, Text.Slashes);
    if trimmed == "" then Ok([])
    else if "" in Text.Split(trimmed, '/') then Err(EmptySegment)
    else Ok(Text.Split(trimmed, '/'))
  }

  method NormalizePath(path: string) returns (r: Result<seq<string>, PathError>)
    ensures r == Normalized(path)
  {
    var trimmed := Text.Trim(path, Text.Slashes);
    if trimmed == "" {
      return Ok([]);
    }
    var pieces, segments := Text.Split(trimmed, '/'), [];
    for i := 0 to |pieces|
      invariant segments == pieces[..i] && "" !in segments
    {
      if pieces[i] == "" {
        return Err(EmptySegment);
      }
      segments := segments + [pieces[i]];
    }
    assert pieces[..|pieces|] == pieces;
    return Ok(segments);
  }

  /** A reference's path as a string. */
  function Print(segments: seq<string>): string {
    if segments == [] then "/" else "/" + Text.Join(segments, '/') + "/"
  }

  /** Segments a parsed path can have. */
  predicate ValidSegments(segments: seq<string>) {
    forall s | s in segments :: s != "" && '/' !in s
  }

  lemma NormalizedIsValid(path: string)
    ensures Normalized(path).Ok? ==> ValidSegments(Normalized(path).value)
  {
    Text.JoinOfSplit(Text.Trim(path, Text.Slashes), '/');
  }

  /** Two slashes in a row somewhere. */
  predicate HasDoubleSlash(s: string) {
    exists k | 0 <= k < |s| - 1 :: s[k] == '/' && s[k+1] == '/'
  }

  lemma DoubleSlashStep(s: string)
    requires s != ""
    ensures HasDoubleSlash(s) <==> (|s| > 1 && s[0] == '/' && s[1] == '/') || HasDoubleSlash(s[1..])
  {
    if HasDoubleSlash(s[1..]) {
      var k :| 0 <= k < |s[1..]| - 1 && s[1..][k] == '/' && s[1..][k+1] == '/';
      assert s[k+1] == '/' && s[k+2] == '/';
    }
    if k :| 0 < k < |s| - 1 && s[k] == '/' && s[k+1] == '/' {
      assert s[1..][k-1] == '/' && s[1..][k] == '/';
    }
  }

  /** Which pieces are empty, the first one and the others. */
  lemma {:induction false} EmptyPieceIff(s: string)
    ensures Text.Split(s, '/')[0] == "" <==> s == "" || s[0] == '/'
    ensures "" in Text.Split(s, '/')[1..] <==> s != "" && (s[|s|-1] == '/' || HasDoubleSlash(s))
  {
    if s != "" {
      var rest := Text.Split(s[1..], '/');
      EmptyPieceIff(s[1..]);
      DoubleSlashStep(s);
      assert rest == [rest[0]] + rest[1..];
      hide HasDoubleSlash;
      assert Text.Split(s, '/')[1..] == if s[0] == '/' then rest else rest[1..];
    }
  }

  /** A path is refused exactly if two slashes meet between its segments. */
  lemma RefusedIff(path: string)
    ensures Normalized(path).Err? <==> HasDoubleSlash(Text.Trim(path, Text.Slashes))
  {
    var a, b := Text.TrimIsMiddle(path, Text.Slashes);
    var trimmed := Text.Trim(path, Text.Slashes);
    var pieces := Text.Split(trimmed, '/');
    EmptyPieceIff(trimmed);
    assert pieces == [pieces[0]] + pieces[1..];
  }

  lemma {:induction false} JoinEnds(segments: seq<string>)
    requires segments != [] && ValidSegments(segments)
    ensures var s := Text.Join(segments, '/'); s != "" && s[0] != '/' && s[|s|-1] != '/'
  {
    var first := segments[0];
    assert first in segments && first[0] in first && first[|first|-1] in first;
    if |segments| > 1 {
      assert forall s | s in segments[1..] :: s in segments;
      JoinEnds(segments[1..]);
    }
  }

  /** Parsing the joined segments of any successful parse gives them back. */
  lemma JoinedIsStable(segments: seq<string>)
    requires ValidSegments(segments)
    ensures Normalized(Text.Join(segments, '/')) == Ok(segments)
  {
    if segments != [] {
      JoinEnds(segments);
      Text.TrimNothing(Text.Join(segments, '/'), Text.Slashes);
      Text.SplitOfJoin(segments, '/');
    }
  }

  lemma TrimPrinted(s: string)
    requires s != "" && s[0] != '/' && s[|s|-1] != '/'
    ensures Text.Trim("/" + s + "/", Text.Slashes) == s
  {
    var printed := "/" + s + "/";
    assert printed[1..] == s + "/";
    assert Text.TrimStart(printed, Text.Slashes) == Text.TrimStart(s + "/", Text.Slashes) == s + "/";
    assert (s + "/")[..|s|] == s;
    assert Text.TrimEnd(s + "/", Text.Slashes) == Text.TrimEnd(s, Text.Slashes) == s;
  }

  lemma PrintedParsesBack(segments: seq<string>)
    requires ValidSegments(segments)
    ensures Normalized(Print(segments)) == Ok(segments)
  {
    if segments == [] {
      assert Text.TrimStart("/", Text.Slashes) == Text.TrimStart("/"[1..], Text.Slashes) == "";
    } else {
      var s := Text.Join(segments, '/');
      JoinEnds(segments);
      TrimPrinted(s);
      Text.SplitOfJoin(segments, '/');
      assert segments[0] in segments;
    }
  }

  /** Printing and parsing round-trips exactly the paths whose segments are non-empty and
      slash-free. */
  lemma PrintParseIff(segments: seq<string>)
    ensures Normalized(Print(segments)) == Ok(segments) <==> ValidSegments(segments)
  {
    NormalizedIsValid(Print(segments));
    if ValidSegments(segments) {
      PrintedParsesBack(segments);
    }
  }
}
