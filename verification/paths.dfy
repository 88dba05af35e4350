/** The parts of Node's `path` module that route generation relies on,
    restricted to the single-segment names a directory listing yields. */
module Paths {

  predicate IsPrefix(p: string, s: string) {
    |p| <= |s| && s[..|p|] == p
  }

  predicate IsSuffix(x: string, s: string) {
    |x| <= |s| && s[|s| - |x|..] == x
  }

  /** Position of the last '.' among the first `n` characters of `s`, or
      -1 when there is none. */
  function LastDot(s: string, n: nat): (k: int)
    requires n <= |s|
    ensures -1 <= k < n
    ensures k >= 0 ==> s[k] == '.'
    ensures forall j :: k < j < n ==> s[j] != '.'
  {
    if n == 0 then -1
    else if s[n - 1] == '.' then n - 1
    else LastDot(s, n - 1)
  }

  /** `path.extname` of a file name: the text from the last '.' to the end.
      A name whose only dot is its first character (a dotfile) has no
      extension, and neither has "..". */
  function Extname(name: string): (ext: string)
    ensures ext != "" ==> ext[0] == '.' && |ext| < |name| && IsSuffix(ext, name)
    ensures ext != "" ==> forall j :: 0 < j < |ext| ==> ext[j] != '.'
    ensures ext == "" <==> name == ".." || forall j :: 0 < j < |name| ==> name[j] != '.'
  {
    if name == ".." then ""
    else
      var k := LastDot(name, |name|);
      if k <= 0 then "" else name[k..]
  }

  /** `path.basename(name, path.extname(name))`: the name without its extension. */
  function Stem(name: string): (stem: string)
    ensures stem + Extname(name) == name
    ensures Extname(name) != "" ==> stem != ""
  {
    name[..|name| - |Extname(name)|]
  }

  /** Segments joined with "/", as `path.join` joins plain names. */
  function JoinSegments(segments: seq<string>): string
  {
    if |segments| == 0 then ""
    else if |segments| == 1 then segments[0]
    else segments[0] + "/" + JoinSegments(segments[1..])
  }

  /** Appending one more segment appends "/" and that segment. */
  lemma {:induction false} JoinSegmentsSnoc(segments: seq<string>, last: string)
    requires segments != []
    ensures JoinSegments(segments + [last]) == JoinSegments(segments) + "/" + last
  {
    if |segments| == 1 {
      assert segments + [last] == [segments[0], last];
    } else {
      calc {
        JoinSegments(segments + [last]);
        { assert (segments + [last])[1..] == segments[1..] + [last]; }
        segments[0] + "/" + JoinSegments(segments[1..] + [last]);
        { JoinSegmentsSnoc(segments[1..], last); }
        segments[0] + "/" + (JoinSegments(segments[1..]) + "/" + last);
      }
    }
  }

  /** `.replace(/\\/g, '/')`: every backslash becomes a forward slash. */
  function ReplaceBackslashes(s: string): (r: string)
    ensures |r| == |s|
    ensures forall i :: 0 <= i < |s| ==> r[i] == (if s[i] == '\\' then '/' else s[i])
  {
    if s == [] then []
    else [if s[0] == '\\' then '/' else s[0]] + ReplaceBackslashes(s[1..])
  }

  /** A string without backslashes is left as it is. */
  lemma ReplaceBackslashesIdentity(s: string)
    requires '\\' !in s
    ensures ReplaceBackslashes(s) == s
  {
    var r := ReplaceBackslashes(s);
    forall i | 0 <= i < |s|
      ensures r[i] == s[i]
    {
      assert s[i] in s;
    }
  }

  /** Replacing backslashes works piece by piece. */
  lemma {:induction false} ReplaceBackslashesAppend(a: string, b: string)
    ensures ReplaceBackslashes(a + b) == ReplaceBackslashes(a) + ReplaceBackslashes(b)
    decreases |a|
  {
    if a == [] {
      assert a + b == b;
    } else {
      assert (a + b)[0] == a[0];
      assert (a + b)[1..] == a[1..] + b;
      ReplaceBackslashesAppend(a[1..], b);
    }
  }

  /** A suffix without "/" is a suffix of the rewritten text only if it
      was already a suffix of the original: a "/" the rewriting introduced
      cannot be part of it. */
  lemma SlashFreeSuffix(x: string, s: string)
    requires '/' !in x
    requires IsSuffix(x, ReplaceBackslashes(s))
    ensures IsSuffix(x, s)
  {
    var r := ReplaceBackslashes(s);
    forall j | 0 <= j < |x|
      ensures s[|s| - |x| + j] == x[j]
    {
      assert r[|r| - |x| + j] == x[j];
      assert x[j] in x;
    }
  }

  /** Joining adds no character other than "/" to those of the segments. */
  lemma {:induction false} JoinSegmentsAvoids(segments: seq<string>, c: char)
    requires c != '/'
    requires forall k :: 0 <= k < |segments| ==> c !in segments[k]
    ensures c !in JoinSegments(segments)
  {
    if |segments| > 1 {
      JoinSegmentsAvoids(segments[1..], c);
      assert c !in segments[0];
    }
  }

  /** A name made of a dot-free stem and an extension with a single leading
      dot splits back into exactly those two parts. */
  lemma ExtnameOfStemAndExtension(stem: string, ext: string)
    requires stem != "" && '.' !in stem
    requires |ext| >= 1 && ext[0] == '.' && '.' !in ext[1..]
    ensures Extname(stem + ext) == ext
    ensures Stem(stem + ext) == stem
  {
    var s := stem + ext;
    var k := LastDot(s, |s|);
    assert s[|stem|] == '.';
    assert forall j :: |stem| < j < |s| ==> s[j] == ext[1..][j - |stem| - 1];
    if k > |stem| {
      assert false;
    }
    if k < |stem| {
      assert false;
    }
    assert s[k..] == ext;
    assert stem[0] in stem && s[0] == stem[0];
    assert s != "..";
  }
}
