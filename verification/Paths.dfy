/** Path names: skipelem, step by step, yields the parts between slashes. */
module Paths {
  import opened Directories

  /** The pieces between slashes, empty ones included. */
  function Split(p: string): (r: seq<string>)
    ensures |r| > 0
  {
    if |p| == 0 then [""]
    else if p[0] == '/' then [""] + Split(p[1..])
    else var r := Split(p[1..]); [[p[0]] + r[0]] + r[1..]
  }

  /** A name cut to what a directory entry holds: its first thirteen characters, or all. */
  function Cut(s: string): (r: string)
    ensures r <= s && |r| == if |s| < 13 then |s| else 13
  {
    if |s| >= DIRSIZ then s[..DIRSIZ - 1] else s
  }

  /** The pieces that are not empty, each cut. */
  function Proper(ss: seq<string>): seq<string> {
    if |ss| == 0 then []
    else (if ss[0] == "" then [] else [Cut(ss[0])]) + Proper(ss[1..])
  }

  /** The names along a path. */
  function Parts(p: string): seq<string> { Proper(Split(p)) }

  lemma SlashesSkip(p: string)
    requires |p| > 0 && p[0] == '/'
    ensures Parts(p) == Parts(p[1..])
  {
    assert Split(p)[1..] == Split(p[1..]);
  }

  predicate NoSlash(s: string) { forall i :: 0 <= i < |s| ==> s[i] != '/' }

  lemma {:induction false} WordSplits(w: string, rest: string)
    requires NoSlash(w) && (rest == "" || rest[0] == '/')
    ensures Split(w + rest) == [w] + Split(rest)[1..] && Split(rest)[0] == ""
  {
    if |w| == 0 {
      assert w + rest == rest;
      assert Split(rest) == [""] + Split(rest)[1..];
    } else {
      var p := w + rest;
      assert p[1..] == w[1..] + rest;
      WordSplits(w[1..], rest);
      assert Split(p)[1..] == Split(rest)[1..];
      assert [p[0]] + w[1..] == w;
    }
  }

  lemma WordThenRest(w: string, rest: string)
    requires |w| > 0 && NoSlash(w) && (rest == "" || rest[0] == '/')
    ensures Parts(w + rest) == [Cut(w)] + Parts(rest)
  {
    WordSplits(w, rest);
    assert Split(w + rest)[1..] == Split(rest)[1..];
  }

  /** A loop of skipelem: past the slashes. */
  method SkipSlashes(path: string, i: nat) returns (p: nat)
    requires i <= |path|
    ensures i <= p <= |path| && Parts(path[p..]) == Parts(path[i..])
    ensures if p < |path| then path[p] != '/' && Parts(path[p..]) != [] else Parts(path[p..]) == []
  {
    p := i;
    while p < |path| && path[p] == '/'
      invariant i <= p <= |path| && Parts(path[p..]) == Parts(path[i..])
    {
      SlashesSkip(path[p..]);
      assert path[p..][1..] == path[p + 1..];
      p := p + 1;
    }
    if p < |path| {
      StartsWithName(path[p..]);
    } else {
      assert path[p..] == "";
    }
  }

  /** The loop of skipelem over the characters of a name. */
  method SkipName(path: string, s: nat) returns (p: nat)
    requires s < |path| && path[s] != '/'
    ensures s < p <= |path| && (p < |path| ==> path[p] == '/')
    ensures Parts(path[s..]) == [Cut(path[s..p])] + Parts(path[p..])
  {
    p := s;
    while p < |path| && path[p] != '/'
      invariant s <= p <= |path| && (p == s ==> path[p] != '/')
      invariant forall k :: s <= k < p ==> path[k] != '/'
    {
      p := p + 1;
    }
    assert path[s..] == path[s..p] + path[p..];
    WordThenRest(path[s..p], path[p..]);
  }

  /** skipelem from position i of a path: -1 at the end, else the next name and the position of
      the one after it. */
  method SkipElem(path: string, i: nat) returns (next: int, name: string)
    requires i <= |path|
    ensures next == -1 <==> Parts(path[i..]) == []
    ensures next != -1 ==>
      && i < next <= |path| && Parts(path[i..]) == [name] + Parts(path[next..])
      && (next < |path| <==> Parts(path[next..]) != [])
    ensures |name| < DIRSIZ
  {
    hide Parts;
    var s := SkipSlashes(path, i);
    if s == |path| { return -1, ""; }
    var p := SkipName(path, s);
    var len := p - s;
    if len >= DIRSIZ { len := DIRSIZ - 1; }
    name := path[s..s + len];
    assert name == Cut(path[s..p]);
    next := SkipSlashes(path, p);
  }

  lemma StartsWithName(p: string)
    requires |p| > 0 && p[0] != '/'
    ensures Parts(p) != []
  {}

  // ---------- what a path is for ----------

  /** The path that goes through these names. */
  function Join(names: seq<string>): string {
    if |names| == 0 then "" else ['/'] + names[0] + Join(names[1..])
  }

  predicate PlainName(s: string) { 0 < |s| <= 13 && NoSlash(s) }

  lemma JoinStarts(names: seq<string>)
    ensures Join(names) == "" || Join(names)[0] == '/'
  {}

  /** The parts of a path are the names it was made of, in order. */
  lemma {:induction false} PartsOfJoin(names: seq<string>)
    requires forall k :: 0 <= k < |names| ==> PlainName(names[k])
    ensures Parts(Join(names)) == names
  {
    hide Parts;
    if |names| == 0 {
      NoParts();
    } else {
      var rest := Join(names[1..]);
      PartsOfJoin(names[1..]);
      JoinStarts(names[1..]);
      var p := Join(names);
      assert p == ['/'] + (names[0] + rest) && p[1..] == names[0] + rest;
      SlashesSkip(p);
      WordThenRest(names[0], rest);
      assert Cut(names[0]) == names[0];
    }
  }

  lemma NoParts()
    ensures Parts("") == []
  {}
}
