/** Slash-separated paths: `parsePath` and the component view that the rest of the project works with. */
module Paths {

  predicate NoSlash(s: string) {
    '/' !in s
  }

  /** The pieces between the slashes, as `strings.Split(s, "/")`; never empty. */
  function Components(s: string): (parts: seq<string>)
    ensures |parts| >= 1
    ensures forall c :: c in parts ==> NoSlash(c)
  {
    if s == "" then [""]
    else
      var rest := Components(s[1..]);
      assert NoSlash(rest[0]);
      if s[0] == '/' then [""] + rest else [[s[0]] + rest[0]] + rest[1..]
  }

  function Join(parts: seq<string>): string
    requires |parts| >= 1
  {
    if |parts| == 1 then parts[0] else parts[0] + "/" + Join(parts[1..])
  }

  /** `p` is `q`, or `p` followed by a slash begins `q`. */
  predicate SlashPrefix(p: string, q: string) {
    p == q || p + "/" <= q
  }

  lemma {:induction false} ComponentsOfCons(c: string, s: string)
    requires NoSlash(c)
    ensures Components(c + "/" + s) == [c] + Components(s)
  {
    if c == "" {
      assert ("/" + s)[1..] == s;
      assert c + "/" + s == "/" + s;
    } else {
      ComponentsOfCons(c[1..], s);
      assert (c + "/" + s)[1..] == c[1..] + "/" + s;
      assert [c[0]] + c[1..] == c;
    }
  }

  lemma {:induction false} ComponentsOfPlain(c: string)
    requires NoSlash(c)
    ensures Components(c) == [c]
  {
    if c != "" {
      ComponentsOfPlain(c[1..]);
      assert [c[0]] + c[1..] == c;
    }
  }

  lemma Regroup(a: string, b: string, c: string, d: string)
    ensures (a + b) + c + d == a + (b + c + d)
  {
    assert ((a + b) + c) == a + (b + c);
  }

  lemma JoinExtended(x: char, rest: seq<string>)
    requires |rest| >= 1
    ensures Join([[x] + rest[0]] + rest[1..]) == [x] + Join(rest)
  {
    var first := [x] + rest[0];
    var parts := [first] + rest[1..];
    assert parts[0] == first && parts[1..] == rest[1..];
    if |rest| > 1 {
      Regroup([x], rest[0], "/", Join(rest[1..]));
    }
  }

  lemma JoinAfterSlash(rest: seq<string>)
    requires |rest| >= 1
    ensures Join([""] + rest) == "/" + Join(rest)
  {
    assert ([""] + rest)[0] == "" && ([""] + rest)[1..] == rest;
    var slash := "" + "/";
    assert slash == "/";
    assert Join([""] + rest) == slash + Join(rest);
  }

  /** Splitting loses nothing. */
  lemma {:induction false} JoinComponents(s: string)
    ensures Join(Components(s)) == s
  {
    if s != "" {
      var rest := Components(s[1..]);
      JoinComponents(s[1..]);
      assert s == [s[0]] + s[1..];
      if s[0] == '/' { JoinAfterSlash(rest); } else { JoinExtended(s[0], rest); }
    }
  }

  /** Every non-empty list of slash-free names is the component list of exactly one string. */
  lemma {:induction false} ComponentsJoin(parts: seq<string>)
    requires |parts| >= 1
    requires forall c :: c in parts ==> NoSlash(c)
    ensures Components(Join(parts)) == parts
  {
    if |parts| == 1 {
      ComponentsOfPlain(parts[0]);
    } else {
      ComponentsJoin(parts[1..]);
      ComponentsOfCons(parts[0], Join(parts[1..]));
    }
  }

  lemma ComponentsInjective(s: string, t: string)
    requires Components(s) == Components(t)
    ensures s == t
  {
    JoinComponents(s);
    JoinComponents(t);
  }

  lemma {:induction false} JoinAppend(xs: seq<string>, ys: seq<string>)
    requires |xs| >= 1 && |ys| >= 1
    ensures Join(xs + ys) == Join(xs) + "/" + Join(ys)
  {
    if |xs| == 1 {
      assert (xs + ys)[1..] == ys;
    } else {
      assert (xs + ys)[1..] == xs[1..] + ys;
      JoinAppend(xs[1..], ys);
    }
  }

  /** Putting a slash and a string after a path puts the string's components after the path's. */
  lemma ComponentsAppend(s: string, r: string)
    ensures Components(s + "/" + r) == Components(s) + Components(r)
  {
    var parts := Components(s) + Components(r);
    JoinComponents(s);
    JoinComponents(r);
    JoinAppend(Components(s), Components(r));
    ComponentsJoin(parts);
  }

  lemma ListPrefixIsSlashPrefix(p: string, q: string)
    requires Components(p) <= Components(q)
    ensures SlashPrefix(p, q)
  {
    var cp, cq := Components(p), Components(q);
    JoinComponents(p);
    JoinComponents(q);
    var rest := cq[|cp|..];
    assert cq == cp + rest;
    if rest == [] {
      assert cq == cp;
    } else {
      JoinAppend(cp, rest);
      assert q == (p + "/") + Join(rest);
    }
  }

  /** The prefix order on component lists is the slash-prefix order on the strings. */
  lemma PrefixIsSlashPrefix(p: string, q: string)
    ensures Components(p) <= Components(q) <==> SlashPrefix(p, q)
  {
    if Components(p) <= Components(q) { ListPrefixIsSlashPrefix(p, q); }
    if p + "/" <= q {
      var r := q[|p| + 1..];
      assert q == p + "/" + r;
      ComponentsAppend(p, r);
    }
  }

  /** `strings.LastIndex(s, "/")`: the position of the last slash, or -1. */
  method LastIndex(s: string) returns (last: int)
    ensures -1 <= last < |s|
    ensures last >= 0 ==> s[last] == '/'
    ensures NoSlash(s[last + 1..])
  {
    last := |s| - 1;
    while last >= 0 && s[last] != '/'
      invariant -1 <= last < |s|
      invariant NoSlash(s[last + 1..])
    {
      assert s[last..] == [s[last]] + s[last + 1..];
      last := last - 1;
    }
  }

  /** `strings.Split(s, "/")` as the loop it is. */
  method Split(s: string) returns (parts: seq<string>)
    ensures parts == Components(s)
  {
    parts := [];
    var piece := "";
    var i := 0;
    while i < |s|
      invariant 0 <= i <= |s|
      invariant NoSlash(piece) && forall c :: c in parts ==> NoSlash(c)
      invariant Join(parts + [piece]) == s[..i]
    {
      assert s[..i + 1] == s[..i] + [s[i]];
      if s[i] == '/' {
        JoinAppend(parts + [piece], [""]);
        parts, piece := parts + [piece], "";
      } else {
        if parts != [] {
          JoinAppend(parts, [piece]);
          JoinAppend(parts, [piece + [s[i]]]);
        } else {
          assert parts + [piece] == [piece] && parts + [piece + [s[i]]] == [piece + [s[i]]];
        }
        piece := piece + [s[i]];
      }
      i := i + 1;
    }
    parts := parts + [piece];
    assert s[..i] == s;
    ComponentsJoin(parts);
  }

  lemma RestIsWhole(path: string, slash: int)
    requires -1 <= slash < |path|
    ensures path[slash + 1..] == path <==> slash == -1
  {
  }

  lemma PlainParts(path: string)
    requires NoSlash(path)
    ensures [] + [path] == Components(path)
  {
    ComponentsOfPlain(path);
    assert [] + [path] == [path];
  }

  /** What follows the last slash is the last component. */
  lemma LastComponent(path: string, slash: nat)
    requires slash < |path| && path[slash] == '/' && NoSlash(path[slash + 1..])
    ensures var parts := Components(path); parts[|parts| - 1] == path[slash + 1..]
  {
    var front, last := path[..slash], path[slash + 1..];
    assert path == front + "/" + last;
    ComponentsAppend(front, last);
    ComponentsOfPlain(last);
  }

  lemma SplitOffLast(path: string, slash: int, paths: seq<string>)
    requires -1 <= slash < |path| && (slash >= 0 ==> path[slash] == '/') && NoSlash(path[slash + 1..])
    requires path[slash + 1..] != path && paths == Components(path)
    ensures paths[..|paths| - 1] + [path[slash + 1..]] == paths
  {
    LastComponent(path, slash);
    assert paths == paths[..|paths| - 1] + [paths[|paths| - 1]];
  }

  lemma PartsAreClean(path: string, buckets: seq<string>, key: string)
    requires buckets + [key] == Components(path)
    ensures Join(buckets + [key]) == path
    ensures NoSlash(key) && forall b :: b in buckets ==> NoSlash(b)
  {
    JoinComponents(path);
    var parts := buckets + [key];
    assert parts[|buckets|] == key && key in parts;
    forall b | b in buckets ensures NoSlash(b) {
      assert b in parts;
    }
  }

  /** Splits a path into the names of its buckets and its key. */
  method ParsePath(path: string) returns (buckets: seq<string>, key: string)
    ensures buckets + [key] == Components(path)
    ensures Join(buckets + [key]) == path
    ensures NoSlash(key) && forall b :: b in buckets ==> NoSlash(b)
  {
    var slash := LastIndex(path);
    var last := path[slash + 1..];
    RestIsWhole(path, slash);
    if last == path {
      PlainParts(path);
      PartsAreClean(path, [], path);
      return [], path;
    }
    var paths := Split(path);
    SplitOffLast(path, slash, paths);
    PartsAreClean(path, paths[..|paths| - 1], last);
    return paths[..|paths| - 1], last;
  }
}
