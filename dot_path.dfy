/**
 * Dot paths into a JSON tree: splitting a key path on '.', and walking the tree
 * one segment at a time with the indexer semantics of the JSON library.
 */
module DotPath {
  import opened Wrappers
  import opened Json

  const Separator: char := '.'

  /** Number of occurrences of `c` in `s`. */
  function Occurrences(s: string, c: char): nat
  {
    if s == [] then 0 else (if s[0] == c then 1 else 0) + Occurrences(s[1..], c)
  }

  /** The segments glued back together with the separator between them. */
  function Join(parts: seq<string>): string
    requires |parts| >= 1
  {
    if |parts| == 1 then parts[0] else parts[0] + [Separator] + Join(parts[1..])
  }

  /**
   * `keyPath.Split('.')`: n separators give n + 1 segments, empty ones included,
   * no segment holds a separator, and joining the segments gives the path back.
   */
  function Split(s: string): (parts: seq<string>)
    ensures |parts| == Occurrences(s, Separator) + 1
    ensures forall i :: 0 <= i < |parts| ==> Separator !in parts[i]
    ensures Join(parts) == s
  {
    if s == [] then [""]
    else
      var rest := Split(s[1..]);
      if s[0] == Separator then
        assert ([""] + rest)[1..] == rest;
        [""] + rest
      else
        var parts := [[s[0]] + rest[0]] + rest[1..];
        assert |rest| > 1 ==> parts[1..] == rest[1..] && Join(rest) == rest[0] + [Separator] + Join(rest[1..]);
        assert s == [s[0]] + s[1..];
        parts
  }

  /** Splitting a text that starts with a separator-free chunk `a`. */
  lemma {:induction false} SplitAfterChunk(a: string, tail: string)
    requires Separator !in a
    ensures Split(a + tail) == [a + Split(tail)[0]] + Split(tail)[1..]
  {
    if a != [] {
      var s := a + tail;
      assert s[0] == a[0] && s[1..] == a[1..] + tail;
      SplitAfterChunk(a[1..], tail);
      var rest := Split(s[1..]);
      assert rest == [a[1..] + Split(tail)[0]] + Split(tail)[1..];
      assert Split(s) == [[s[0]] + rest[0]] + rest[1..];
      assert [a[0]] + (a[1..] + Split(tail)[0]) == a + Split(tail)[0];
    } else {
      assert a + tail == tail && a + Split(tail)[0] == Split(tail)[0];
    }
  }

  lemma SplitAtSeparator(rest: string)
    ensures Split([Separator] + rest) == [""] + Split(rest)
  {
  }

  /** Joining separator-free segments and splitting again gives the segments back. */
  lemma {:induction false} SplitJoin(parts: seq<string>)
    requires |parts| >= 1
    requires forall i :: 0 <= i < |parts| ==> Separator !in parts[i]
    ensures Split(Join(parts)) == parts
  {
    if |parts| == 1 {
      SplitAfterChunk(parts[0], "");
    } else {
      var rest := Join(parts[1..]);
      assert forall i :: 0 <= i < |parts| - 1 ==> parts[1..][i] == parts[i + 1];
      SplitJoin(parts[1..]);
      var tail := [Separator] + rest;
      SplitAtSeparator(rest);
      SplitAfterChunk(parts[0], tail);
      assert Join(parts) == parts[0] + tail;
      assert parts[0] + "" == parts[0];
      assert parts == [parts[0]] + parts[1..];
    }
  }

  /**
   * Why indexing a node by a key segment failed. Only the missing-property case and
   * the library's array error name the segment; indexing a scalar names nothing.
   */
  datatype StepFailure =
    | MissingKey(key: string)   // the object has no such property (KeyNotFoundException)
    | ArrayKey(key: string)     // an array indexed by a property name (ArgumentException)
    | NoChildren                // a scalar or null indexed at all (InvalidOperationException)

  /** `node[key]`: one step of the walk. */
  function Step(node: Json, key: string): (r: Result<Json, StepFailure>)
    ensures r.Success? <==> node.JObj? && key in node.fields
    ensures r.Success? ==> r.value == node.fields[key]
    ensures r == Failure(MissingKey(key)) <==> node.JObj? && key !in node.fields
    ensures r == Failure(ArrayKey(key)) <==> node.JArr?
    ensures r == Failure(NoChildren) <==> !node.JObj? && !node.JArr?
  {
    match node
    case JObj(fields) => if key in fields then Success(fields[key]) else Failure(MissingKey(key))
    case JArr(_) => Failure(ArrayKey(key))
    case _ => Failure(NoChildren)
  }

  /** The node reached from `tree` by the segments `keys` in order, or the first step that failed. */
  function Resolve(tree: Json, keys: seq<string>): (r: Result<Json, StepFailure>)
    ensures keys == [] ==> r == Success(tree)
    ensures r.Failure? ==> keys != []
    ensures r.Failure? && !r.error.NoChildren? ==> r.error.key in keys
  {
    if keys == [] then Success(tree)
    else
      match Step(tree, keys[0])
      case Success(child) => Resolve(child, keys[1..])
      case Failure(e) => Failure(e)
  }

  /**
   * Reference definition of a successful walk: `trail[i]` is an object holding key
   * `keys[i]`, whose value is `trail[i + 1]`.
   */
  ghost predicate Walks(tree: Json, keys: seq<string>, trail: seq<Json>)
  {
    && |trail| == |keys| + 1
    && trail[0] == tree
    && forall i :: 0 <= i < |keys| ==>
         trail[i].JObj? && keys[i] in trail[i].fields && trail[i + 1] == trail[i].fields[keys[i]]
  }

  /** The nodes visited by `Resolve`, up to and including the one where it stopped. */
  ghost function Trail(tree: Json, keys: seq<string>): seq<Json>
  {
    if keys == [] then [tree]
    else
      match Step(tree, keys[0])
      case Success(child) => [tree] + Trail(child, keys[1..])
      case Failure(_) => [tree]
  }

  lemma WalkTail(tree: Json, keys: seq<string>, trail: seq<Json>)
    requires |keys| > 0 && Walks(tree, keys, trail)
    ensures Walks(trail[1], keys[1..], trail[1..])
  {
  }

  /** Completeness: whenever a walk exists, `Resolve` succeeds with the node the walk ends at. */
  lemma {:induction false} ResolveFollowsWalk(tree: Json, keys: seq<string>, trail: seq<Json>)
    requires Walks(tree, keys, trail)
    ensures Resolve(tree, keys) == Success(trail[|keys|])
  {
    if keys != [] {
      assert trail[0].JObj? && keys[0] in trail[0].fields;
      WalkTail(tree, keys, trail);
      ResolveFollowsWalk(trail[1], keys[1..], trail[1..]);
    }
  }

  /** Soundness: when `Resolve` succeeds, the nodes it visited form a walk ending at its result. */
  lemma {:induction false} ResolveWalkSound(tree: Json, keys: seq<string>)
    requires Resolve(tree, keys).Success?
    ensures Walks(tree, keys, Trail(tree, keys))
    ensures Trail(tree, keys)[|keys|] == Resolve(tree, keys).value
  {
    if keys != [] {
      var child := Step(tree, keys[0]).value;
      ResolveWalkSound(child, keys[1..]);
      var t := Trail(tree, keys);
      assert t == [tree] + Trail(child, keys[1..]);
      forall i | 0 <= i < |keys|
        ensures t[i].JObj? && keys[i] in t[i].fields && t[i + 1] == t[i].fields[keys[i]]
      {
        if i > 0 {
          assert t[i] == Trail(child, keys[1..])[i - 1] && keys[i] == keys[1..][i - 1];
        }
      }
    }
  }

  /**
   * Failure: `Resolve` fails exactly with the failure of the first step that fails;
   * every step before it succeeded.
   */
  lemma {:induction false} ResolveFailsAtFirstBadStep(tree: Json, keys: seq<string>)
    requires Resolve(tree, keys).Failure?
    ensures var t := Trail(tree, keys);
      && |t| <= |keys|
      && Walks(tree, keys[..|t| - 1], t)
      && Step(t[|t| - 1], keys[|t| - 1]) == Failure(Resolve(tree, keys).error)
  {
    var t := Trail(tree, keys);
    match Step(tree, keys[0])
    case Failure(_) =>
      assert t == [tree];
    case Success(child) =>
      ResolveFailsAtFirstBadStep(child, keys[1..]);
      var u := Trail(child, keys[1..]);
      assert t == [tree] + u;
      var n := |u| - 1;
      assert keys[1..][n] == keys[n + 1];
      forall i | 0 <= i < |t| - 1
        ensures t[i].JObj? && keys[..|t| - 1][i] in t[i].fields
        ensures t[i + 1] == t[i].fields[keys[..|t| - 1][i]]
      {
        if i > 0 {
          assert t[i] == u[i - 1] && keys[i] == keys[1..][..n][i - 1];
        }
      }
  }

  /**
   * A segment that names no property of the object reached so far fails the
   * resolution with a not-found error naming that segment, whatever follows it.
   */
  lemma {:induction false} ResolveMissingKey(tree: Json, keys: seq<string>, i: nat, trail: seq<Json>)
    requires i < |keys|
    requires Walks(tree, keys[..i], trail)
    requires trail[i].JObj? && keys[i] !in trail[i].fields
    ensures Resolve(tree, keys) == Failure(MissingKey(keys[i]))
  {
    if i > 0 {
      assert keys[..i][0] == keys[0];
      WalkTail(tree, keys[..i], trail);
      assert keys[..i][1..] == keys[1..][..i - 1];
      ResolveMissingKey(trail[1], keys[1..], i - 1, trail[1..]);
    }
  }

  /**
   * Walking `a + b` is walking `a` and then `b` from where `a` ended; when `a`
   * already fails, the segments of `b` are never consulted.
   */
  lemma {:induction false} ResolveAppend(tree: Json, a: seq<string>, b: seq<string>)
    ensures Resolve(tree, a + b) ==
      match Resolve(tree, a)
      case Success(mid) => Resolve(mid, b)
      case Failure(e) => Failure(e)
  {
    if a == [] {
      assert a + b == b;
    } else {
      assert (a + b)[0] == a[0] && (a + b)[1..] == a[1..] + b;
      match Step(tree, a[0])
      case Success(child) => ResolveAppend(child, a[1..], b);
      case Failure(_) =>
    }
  }
}
