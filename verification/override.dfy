/**
 * Applying user overrides to a generated mock event
 * (`internal/pkg/mock/event/override.go`). The walk visits the keys of
 * every object in Go's unspecified map order; an override whose key is
 * met replaces that value and is used up, objects and arrays that are not
 * replaced are searched further, and overrides never met are added at the
 * top level afterwards.
 *
 * Go's map iteration order is a choice (`:|`) here, so every contract
 * holds for every order. The decoded maps share no structure, so the
 * in-place updates of nested maps are modelled on values.
 */
module MockOverride {
  import opened Wrappers
  import opened Json

  /** `b` is `a` with some values, at keys of `ov`, replaced by the override under that key; nothing else differs. */
  predicate Refines(a: Json, b: Json, ov: map<string, Json>)
    decreases a
  {
    match a
    case JObj(f) =>
      b.JObj? && b.fields.Keys == f.Keys &&
      forall k :: k in f ==> (k in ov && b.fields[k] == ov[k]) || Refines(f[k], b.fields[k], ov)
    case JArr(xs) =>
      b.JArr? && |b.items| == |xs| && forall i :: 0 <= i < |xs| ==> Refines(xs[i], b.items[i], ov)
    case _ => b == a
  }

  /** `c` is a key of some object inside `v` (including `v` itself). */
  predicate Occurs(c: string, v: Json)
    decreases v
  {
    match v
    case JObj(f) => c in f || exists k :: k in f && Occurs(c, f[k])
    case JArr(xs) => exists i :: 0 <= i < |xs| && Occurs(c, xs[i])
    case _ => false
  }

  /** `k` occurs as a key inside the value of some other top-level key. */
  predicate OccursBeside(k: string, e: map<string, Json>)
  {
    exists j :: j in e && j != k && Occurs(k, e[j])
  }

  /** What is left of the overrides is part of what was given: deletion only. */
  predicate Sub(small: map<string, Json>, big: map<string, Json>)
  {
    small.Keys <= big.Keys && forall k :: k in small ==> small[k] == big[k]
  }

  /** The overrides that have been used up. */
  function Consumed(ov: map<string, Json>, left: map<string, Json>): (c: map<string, Json>)
    ensures Sub(c, ov) && forall k :: k in ov ==> (k in c <==> k !in left)
  {
    map k | k in ov && k !in left :: ov[k]
  }

  /** Allowing more replacements keeps a refinement. */
  lemma {:induction false} RefinesMono(a: Json, b: Json, ov1: map<string, Json>, ov2: map<string, Json>)
    requires Refines(a, b, ov1) && Sub(ov1, ov2)
    ensures Refines(a, b, ov2)
    decreases a
  {
    match a
    case JObj(f) =>
      forall k | k in f && !(k in ov1 && b.fields[k] == ov1[k]) ensures Refines(f[k], b.fields[k], ov2) {
        RefinesMono(f[k], b.fields[k], ov1, ov2);
      }
    case JArr(xs) =>
      forall i | 0 <= i < |xs| ensures Refines(xs[i], b.items[i], ov2) {
        RefinesMono(xs[i], b.items[i], ov1, ov2);
      }
    case _ =>
  }

  /** With no overrides, a refinement is the identity. */
  lemma {:induction false} RefinesNothing(a: Json, b: Json)
    requires Refines(a, b, map[])
    ensures b == a
    decreases a
  {
    match a
    case JObj(f) =>
      forall k | k in f ensures b.fields[k] == f[k] {
        RefinesNothing(f[k], b.fields[k]);
      }
      assert b.fields == f;
    case JArr(xs) =>
      forall i | 0 <= i < |xs| ensures b.items[i] == xs[i] {
        RefinesNothing(xs[i], b.items[i]);
      }
      assert b.items == xs;
    case _ =>
  }

  /** One step into a JSON value: an object key or an array index. */
  datatype Step = Key(key: string) | Index(index: nat)

  /** Where a value sits inside a JSON document. */
  type Path = seq<Step>

  /** The key a path ends in ("" for a path that does not end in a key). */
  function LastKey(p: Path): string
  {
    if |p| > 0 && p[|p| - 1].Key? then p[|p| - 1].key else ""
  }

  /** The paths of `P` that start with `s`, without that step. */
  function Below(P: set<Path>, s: Step): set<Path>
  {
    set p | p in P && |p| > 0 && p[0] == s :: p[1..]
  }

  /** The paths of `Q`, each behind the step `s`. */
  function Prefixed(s: Step, Q: set<Path>): set<Path>
  {
    set q | q in Q :: [s] + q
  }

  /**
   * `b` is `a` with exactly the values at the paths `P` replaced, each by
   * the override named by the key the path ends in; no replaced value is
   * searched further, and nothing else differs.
   */
  predicate ReplacedAt(a: Json, b: Json, ov: map<string, Json>, P: set<Path>)
    decreases a, 0
  {
    match a
    case JObj(f) =>
      b.JObj? && b.fields.Keys == f.Keys &&
      (forall p: Path :: p in P ==> |p| > 0 && p[0].Key? && p[0].key in f) &&
      forall k :: k in f ==> PlacedKey(f[k], b.fields[k], k, ov, P)
    case JArr(xs) =>
      b.JArr? && |b.items| == |xs| &&
      (forall p: Path :: p in P ==> |p| > 0 && p[0].Index? && p[0].index < |xs|) &&
      forall i :: 0 <= i < |xs| ==> ReplacedAt(xs[i], b.items[i], ov, Below(P, Index(i)))
    case _ => P == {} && b == a
  }

  /** The value `a` under key `k` became `b`: replaced when the path `[k]` is in `P`, otherwise as the paths below `k` say. */
  predicate PlacedKey(a: Json, b: Json, k: string, ov: map<string, Json>, P: set<Path>)
    decreases a, 1
  {
    if [Key(k)] in P then
      k in ov && b == ov[k] && forall p: Path :: p in P && |p| > 0 && p[0] == Key(k) ==> p == [Key(k)]
    else ReplacedAt(a, b, ov, Below(P, Key(k)))
  }

  /**
   * The walk over `a` meets the key `c`: some object it visits has `c` as a
   * key. The walk visits every key of an object and goes on into the values
   * not replaced (the paths `P` say which were), so a key met while its
   * override is still left takes that override.
   */
  predicate Meets(c: string, a: Json, P: set<Path>)
    decreases a, 0
  {
    match a
    case JObj(f) => exists k :: k in f && MeetsKey(c, f[k], k, P)
    case JArr(xs) => exists i :: 0 <= i < |xs| && Meets(c, xs[i], Below(P, Index(i)))
    case _ => false
  }

  /** The walk meets `c` at the key `k` holding `a`: it is `k` itself, or met inside `a` when `a` was not replaced. */
  predicate MeetsKey(c: string, a: Json, k: string, P: set<Path>)
    decreases a, 1
  {
    k == c || ([Key(k)] !in P && Meets(c, a, Below(P, Key(k))))
  }

  /** No override still left is met by the walk: every key the walk reaches took its override if one was left. */
  predicate Missed(left: map<string, Json>, a: Json, P: set<Path>)
  {
    forall c :: c in left ==> !Meets(c, a, P)
  }

  /**
   * No replaced path passes, on its way down, a key named like the
   * override it ends with: the walk replaces a key's value at the first
   * place it meets that key and never searches inside what it replaced.
   */
  predicate FirstOnPath(P: set<Path>)
  {
    forall p: Path, i :: p in P && 0 <= i < |p| - 1 ==> p[i] != Key(LastKey(p))
  }

  /**
   * Each override used up between `ov` and `left` was applied at exactly
   * one path, and every path applied an override used up.
   */
  predicate OnceEach(ov: map<string, Json>, left: map<string, Json>, P: set<Path>)
  {
    (forall p: Path :: p in P ==> |p| > 0 && p[|p| - 1].Key?) &&
    (forall p, q :: p in P && q in P && LastKey(p) == LastKey(q) ==> p == q) &&
    (forall p :: p in P ==> LastKey(p) in ov && LastKey(p) !in left) &&
    (forall k :: k in ov && k !in left ==> exists p :: p in P && LastKey(p) == k)
  }

  /** The outcome of the whole walk: the event `w` and the overrides `left` that `EventOverridesMap` may leave. */
  predicate Applied(ov: map<string, Json>, e: map<string, Json>, left: map<string, Json>,
                    P: set<Path>, w: map<string, Json>)
  {
    Sub(left, ov) && w.Keys == e.Keys && (forall k :: k in e ==> k !in left) &&
    ReplacedAt(JObj(e), JObj(w), ov, P) && OnceEach(ov, left, P) && Missed(left, JObj(e), P) &&
    FirstOnPath(P)
  }

  /** Allowing more overrides keeps a replacement: the values applied are the same. */
  lemma {:induction false} ReplacedAtMono(a: Json, b: Json, ov1: map<string, Json>, ov2: map<string, Json>, P: set<Path>)
    requires ReplacedAt(a, b, ov1, P) && Sub(ov1, ov2)
    ensures ReplacedAt(a, b, ov2, P)
    decreases a
  {
    match a
    case JObj(f) =>
      forall k | k in f ensures PlacedKey(f[k], b.fields[k], k, ov2, P) {
        if [Key(k)] !in P {
          ReplacedAtMono(f[k], b.fields[k], ov1, ov2, Below(P, Key(k)));
        }
      }
    case JArr(xs) =>
      forall i | 0 <= i < |xs| ensures ReplacedAt(xs[i], b.items[i], ov2, Below(P, Index(i))) {
        ReplacedAtMono(xs[i], b.items[i], ov1, ov2, Below(P, Index(i)));
      }
    case _ =>
  }

  /** Paths that start elsewhere do not change what lies below `t`. */
  lemma BelowFrame(P: set<Path>, R: set<Path>, t: Step)
    requires forall r: Path :: r in R ==> |r| > 0 && r[0] != t
    ensures Below(P + R, t) == Below(P, t)
  {
    forall x | x in Below(P + R, t) ensures x in Below(P, t) {
      var p :| p in P + R && |p| > 0 && p[0] == t && p[1..] == x;
    }
  }

  /** Behind a step no path of `P` takes, exactly the prefixed paths lie. */
  lemma BelowPrefixed(P: set<Path>, Q: set<Path>, s: Step)
    requires forall p: Path :: p in P ==> |p| > 0 && p[0] != s
    ensures Below(P + Prefixed(s, Q), s) == Q
  {
    forall x | x in Below(P + Prefixed(s, Q), s) ensures x in Q {
      var p :| p in P + Prefixed(s, Q) && |p| > 0 && p[0] == s && p[1..] == x;
      var q :| q in Q && p == [s] + q;
      assert p[1..] == q;
    }
    forall x | x in Q ensures x in Below(P + Prefixed(s, Q), s) {
      assert [s] + x in Prefixed(s, Q) && ([s] + x)[1..] == x;
    }
  }

  /** Adding paths that start at other keys keeps what a key's value became. */
  lemma PlacedKeyFrame(a: Json, b: Json, k: string, ov: map<string, Json>, P: set<Path>, R: set<Path>)
    requires PlacedKey(a, b, k, ov, P)
    requires forall r: Path :: r in R ==> |r| > 0 && r[0] != Key(k)
    ensures PlacedKey(a, b, k, ov, P + R)
  {
    BelowFrame(P, R, Key(k));
    assert [Key(k)] !in R;
  }

  /** A key no path reached yet, replaced by its override: the path to it is added. */
  lemma PlacedKeyReplaced(a: Json, k: string, ov: map<string, Json>, P: set<Path>)
    requires k in ov
    requires forall p: Path :: p in P ==> |p| > 0 && p[0] != Key(k)
    ensures PlacedKey(a, ov[k], k, ov, P + {[Key(k)]})
  {
  }

  /** A key no path reached yet, searched: the paths found in its value are added behind it. */
  lemma PlacedKeySearched(a: Json, b: Json, k: string, ov: map<string, Json>, P: set<Path>, Q: set<Path>)
    requires ReplacedAt(a, b, ov, Q) && forall q: Path :: q in Q ==> |q| > 0
    requires forall p: Path :: p in P ==> |p| > 0 && p[0] != Key(k)
    ensures PlacedKey(a, b, k, ov, P + Prefixed(Key(k), Q))
  {
    BelowPrefixed(P, Q, Key(k));
  }

  lemma OnceEachPrefixed(ov: map<string, Json>, left: map<string, Json>, Q: set<Path>, s: Step)
    requires OnceEach(ov, left, Q)
    ensures OnceEach(ov, left, Prefixed(s, Q))
  {
    var R := Prefixed(s, Q);
    forall p: Path | p in R ensures |p| > 0 && p[|p| - 1].Key? && exists q :: q in Q && p == [s] + q && LastKey(p) == LastKey(q) {
      var q :| q in Q && p == [s] + q;
    }
    forall k | k in ov && k !in left ensures exists p :: p in R && LastKey(p) == k {
      var q :| q in Q && LastKey(q) == k;
      assert [s] + q in R && LastKey([s] + q) == k;
    }
  }

  /** Paths that use up disjoint overrides, one step after the other, together use each once. */
  lemma OnceEachUnion(ov: map<string, Json>, left: map<string, Json>, left1: map<string, Json>,
                      P: set<Path>, R: set<Path>)
    requires OnceEach(ov, left, P) && OnceEach(left, left1, R) && Sub(left, ov) && Sub(left1, left)
    ensures OnceEach(ov, left1, P + R)
  {
    forall p, q | p in P && q in R ensures LastKey(p) != LastKey(q) {
      assert LastKey(p) in ov && LastKey(p) !in left;
    }
  }

  /** The walk's replacements so far, once the keys outside `remaining` are visited. */
  predicate Placed(ov: map<string, Json>, e: map<string, Json>, remaining: set<string>,
                   left: map<string, Json>, e': map<string, Json>, P: set<Path>)
    requires e'.Keys == e.Keys
  {
    StartsVisited(e, remaining, P) && KeysPlaced(ov, e, remaining, e', P) && OnceEach(ov, left, P)
  }

  /** Every path starts at a visited key. */
  predicate StartsVisited(e: map<string, Json>, remaining: set<string>, P: set<Path>)
  {
    forall p: Path :: p in P ==> |p| > 0 && p[0].Key? && p[0].key in e && p[0].key !in remaining
  }

  /** Every visited key's value became what the paths below it say. */
  predicate KeysPlaced(ov: map<string, Json>, e: map<string, Json>, remaining: set<string>,
                       e': map<string, Json>, P: set<Path>)
    requires e'.Keys == e.Keys
  {
    forall k :: k in e && k !in remaining ==> PlacedKey(e[k], e'[k], k, ov, P)
  }

  /** Visiting a key by applying its override adds exactly the path to that key. */
  lemma PlacedReplace(ov: map<string, Json>, e: map<string, Json>, remaining: set<string>,
                      left: map<string, Json>, e': map<string, Json>, P: set<Path>, key: string,
                      left1: map<string, Json>)
    requires e'.Keys == e.Keys && Sub(left, ov) && Placed(ov, e, remaining, left, e', P)
    requires key in remaining && key in e && key in left
    requires left1 == map k | k in left && k != key :: left[k]
    ensures Placed(ov, e, remaining - {key}, left1, e'[key := left[key]], P + {[Key(key)]})
  {
    var R: set<Path> := {[Key(key)]};
    OnceEachSingle(left, key);
    assert OnceEach(left, left1, R);
    OnceEachUnion(ov, left, left1, P, R);
    KeyStarts(e, remaining, P, R, key);
    ReplacedKeys(ov, e, remaining, e', P, key, left[key]);
  }

  /** Using up one override at a top-level key is a single application. */
  lemma OnceEachSingle(left: map<string, Json>, key: string)
    requires key in left
    ensures OnceEach(left, map k | k in left && k != key :: left[k], {[Key(key)]})
  {
    assert LastKey([Key(key)]) == key;
  }

  /** Paths added behind a key being visited start at a visited key. */
  lemma KeyStarts(e: map<string, Json>, remaining: set<string>, P: set<Path>, R: set<Path>, key: string)
    requires key in e
    requires forall p: Path :: p in P ==> |p| > 0 && p[0].Key? && p[0].key in e && p[0].key !in remaining
    requires forall r: Path :: r in R ==> |r| > 0 && r[0] == Key(key)
    ensures StartsVisited(e, remaining - {key}, P + R)
  {
  }

  /** The per-key half of `PlacedReplace`. */
  lemma ReplacedKeys(ov: map<string, Json>, e: map<string, Json>, remaining: set<string>,
                     e': map<string, Json>, P: set<Path>, key: string, v: Json)
    requires e'.Keys == e.Keys && key in remaining && key in e && key in ov && v == ov[key]
    requires forall p: Path :: p in P ==> |p| > 0 && p[0].Key? && p[0].key !in remaining
    requires forall k :: k in e && k !in remaining ==> PlacedKey(e[k], e'[k], k, ov, P)
    ensures KeysPlaced(ov, e, remaining - {key}, e'[key := v], P + {[Key(key)]})
  {
    forall k | k in e && k !in remaining - {key}
      ensures PlacedKey(e[k], e'[key := v][k], k, ov, P + {[Key(key)]})
    {
      if k != key {
        PlacedKeyFrame(e[k], e'[k], k, ov, P, {[Key(key)]});
      } else {
        PlacedKeyReplaced(e[k], key, ov, P);
      }
    }
  }

  /** Paths from a walk one level down, put behind a step, keep each override used once. */
  lemma OnceEachStep(ov: map<string, Json>, left: map<string, Json>, left1: map<string, Json>,
                     P: set<Path>, Q: set<Path>, s: Step)
    requires OnceEach(ov, left, P) && OnceEach(left, left1, Q) && Sub(left, ov) && Sub(left1, left)
    ensures OnceEach(ov, left1, P + Prefixed(s, Q))
  {
    OnceEachPrefixed(left, left1, Q, s);
    OnceEachUnion(ov, left, left1, P, Prefixed(s, Q));
  }

  /** Visiting a key by searching its value adds the searched paths behind that key. */
  lemma PlacedSearch(ov: map<string, Json>, e: map<string, Json>, remaining: set<string>,
                     left: map<string, Json>, e': map<string, Json>, P: set<Path>, key: string,
                     left1: map<string, Json>, v: Json, Q: set<Path>)
    requires e'.Keys == e.Keys && Sub(left, ov) && Placed(ov, e, remaining, left, e', P)
    requires key in remaining && key in e
    requires Sub(left1, left) && ReplacedAt(e[key], v, left, Q) && OnceEach(left, left1, Q)
    ensures Placed(ov, e, remaining - {key}, left1, e'[key := v], P + Prefixed(Key(key), Q))
  {
    OnceEachStep(ov, left, left1, P, Q, Key(key));
    ReplacedAtMono(e[key], v, left, ov, Q);
    PrefixedStart(Q, Key(key));
    KeyStarts(e, remaining, P, Prefixed(Key(key), Q), key);
    SearchedKeys(ov, e, remaining, e', P, key, v, Q);
  }

  /** The per-key half of `PlacedSearch`. */
  lemma SearchedKeys(ov: map<string, Json>, e: map<string, Json>, remaining: set<string>,
                     e': map<string, Json>, P: set<Path>, key: string, v: Json, Q: set<Path>)
    requires e'.Keys == e.Keys && key in remaining && key in e
    requires forall p: Path :: p in P ==> |p| > 0 && p[0].Key? && p[0].key !in remaining
    requires forall k :: k in e && k !in remaining ==> PlacedKey(e[k], e'[k], k, ov, P)
    requires ReplacedAt(e[key], v, ov, Q) && forall q: Path :: q in Q ==> |q| > 0
    requires forall p: Path :: p in Prefixed(Key(key), Q) ==> |p| > 0 && p[0] == Key(key)
    ensures KeysPlaced(ov, e, remaining - {key}, e'[key := v], P + Prefixed(Key(key), Q))
  {
    forall k | k in e && k !in remaining - {key}
      ensures PlacedKey(e[k], e'[key := v][k], k, ov, P + Prefixed(Key(key), Q))
    {
      if k != key {
        PlacedKeyFrame(e[k], e'[k], k, ov, P, Prefixed(Key(key), Q));
      } else {
        PlacedKeySearched(e[k], v, key, ov, P, Q);
      }
    }
  }

  /** Every prefixed path starts with its step. */
  lemma PrefixedStart(Q: set<Path>, s: Step)
    ensures forall p: Path :: p in Prefixed(s, Q) ==> |p| > 0 && p[0] == s
  {
    forall p: Path | p in Prefixed(s, Q) ensures |p| > 0 && p[0] == s {
      var q :| q in Q && p == [s] + q;
    }
  }

  /** Replacing a top-level key adds a path that passes no key on its way. */
  lemma FirstOnPathReplace(P: set<Path>, key: string)
    requires FirstOnPath(P)
    ensures FirstOnPath(P + {[Key(key)]})
  {
  }

  /**
   * Paths found below the step `s`, each ending in an override that was
   * still left when `s` was passed without being replaced, stay first on
   * their way once put behind `s`.
   */
  lemma FirstOnPathStep(P: set<Path>, Q: set<Path>, s: Step, left: map<string, Json>,
                        left1: map<string, Json>)
    requires FirstOnPath(P) && FirstOnPath(Q) && OnceEach(left, left1, Q)
    requires s.Key? ==> s.key !in left
    ensures FirstOnPath(P + Prefixed(s, Q))
  {
    FirstOnPathPrefixed(Q, s, left);
    FirstOnPathUnion(P, Prefixed(s, Q));
  }

  /** The prefixed half of `FirstOnPathStep`. */
  lemma FirstOnPathPrefixed(Q: set<Path>, s: Step, left: map<string, Json>)
    requires FirstOnPath(Q) && forall q: Path :: q in Q ==> |q| > 0 && LastKey(q) in left
    requires s.Key? ==> s.key !in left
    ensures FirstOnPath(Prefixed(s, Q))
  {
    forall p: Path, i | p in Prefixed(s, Q) && 0 <= i < |p| - 1 ensures p[i] != Key(LastKey(p)) {
      var q :| q in Q && p == [s] + q;
      FirstOnPathCons(s, q, i);
    }
  }

  /** One path put behind `s`: the step at `i` is `s` or a step of `q`, and the last key is `q`'s. */
  lemma FirstOnPathCons(s: Step, q: Path, i: int)
    requires |q| > 0 && 0 <= i < |q|
    ensures LastKey([s] + q) == LastKey(q)
    ensures i == 0 ==> ([s] + q)[i] == s
    ensures i > 0 ==> ([s] + q)[i] == q[i - 1]
  {
  }

  /** Two sets of first-on-path paths together. */
  lemma FirstOnPathUnion(P: set<Path>, R: set<Path>)
    requires FirstOnPath(P) && FirstOnPath(R)
    ensures FirstOnPath(P + R)
  {
  }

  /** The array walk's replacements so far, once the elements before `i` are searched. */
  predicate PlacedArr(ov: map<string, Json>, xs: seq<Json>, i: nat, xs': seq<Json>, left: map<string, Json>,
                      P: set<Path>)
    requires i <= |xs| == |xs'|
  {
    (forall p: Path :: p in P ==> |p| > 0 && p[0].Index? && p[0].index < i) &&
    (forall j :: 0 <= j < i ==> ReplacedAt(xs[j], xs'[j], ov, Below(P, Index(j)))) &&
    OnceEach(ov, left, P)
  }

  /** Searching element `i` adds the searched paths behind its index. */
  lemma PlacedArrStep(ov: map<string, Json>, xs: seq<Json>, i: nat, xs': seq<Json>, left: map<string, Json>,
                      P: set<Path>, left1: map<string, Json>, v: Json, Q: set<Path>)
    requires i < |xs| == |xs'| && PlacedArr(ov, xs, i, xs', left, P) && Sub(left, ov)
    requires Sub(left1, left) && ReplacedAt(xs[i], v, left, Q) && OnceEach(left, left1, Q)
    ensures PlacedArr(ov, xs, i + 1, xs'[i := v], left1, P + Prefixed(Index(i), Q))
  {
    OnceEachStep(ov, left, left1, P, Q, Index(i));
    ReplacedAtMono(xs[i], v, left, ov, Q);
    PrefixedStart(Q, Index(i));
    SearchedElements(ov, xs, i, xs', P, v, Q);
  }

  /** The per-element half of `PlacedArrStep`. */
  lemma SearchedElements(ov: map<string, Json>, xs: seq<Json>, i: nat, xs': seq<Json>,
                         P: set<Path>, v: Json, Q: set<Path>)
    requires i < |xs| == |xs'|
    requires forall p: Path :: p in P ==> |p| > 0 && p[0].Index? && p[0].index < i
    requires forall j :: 0 <= j < i ==> ReplacedAt(xs[j], xs'[j], ov, Below(P, Index(j)))
    requires ReplacedAt(xs[i], v, ov, Q)
    requires forall p: Path :: p in Prefixed(Index(i), Q) ==> |p| > 0 && p[0] == Index(i)
    ensures forall p: Path :: p in P + Prefixed(Index(i), Q) ==> |p| > 0 && p[0].Index? && p[0].index < i + 1
    ensures forall j :: 0 <= j < i + 1 ==> ReplacedAt(xs[j], xs'[i := v][j], ov, Below(P + Prefixed(Index(i), Q), Index(j)))
  {
    var R := Prefixed(Index(i), Q);
    forall j | 0 <= j < i + 1
      ensures ReplacedAt(xs[j], xs'[i := v][j], ov, Below(P + R, Index(j)))
    {
      if j == i {
        BelowPrefixed(P, Q, Index(i));
      } else {
        BelowFrame(P, R, Index(j));
      }
    }
  }

  /** The state of the walk over an object once the keys outside `remaining` are visited. */
  predicate Walked(ov: map<string, Json>, e: map<string, Json>, remaining: set<string>,
                   left: map<string, Json>, e': map<string, Json>)
  {
    && remaining <= e.Keys && e'.Keys == e.Keys && Sub(left, ov)
    && (forall k :: k in remaining ==> e'[k] == e[k])
    && (forall k :: k in e && k !in remaining ==> k !in left)
    && VisitedRefine(ov, e, remaining, left, e')
    && ConsumedOccur(ov, e, remaining, left)
    && AloneReplaced(ov, e, remaining, e')
  }

  /** Each visited key took a used-up override or is a refinement of its old value. */
  predicate VisitedRefine(ov: map<string, Json>, e: map<string, Json>, remaining: set<string>,
                          left: map<string, Json>, e': map<string, Json>)
    requires e'.Keys == e.Keys
  {
    forall k :: k in e && k !in remaining ==>
      (k in Consumed(ov, left) && e'[k] == ov[k]) || Refines(e[k], e'[k], Consumed(ov, left))
  }

  /** Each used-up override is a visited key or a key inside a visited value. */
  predicate ConsumedOccur(ov: map<string, Json>, e: map<string, Json>, remaining: set<string>, left: map<string, Json>)
  {
    forall c :: c in ov && c !in left ==>
      (c in e && c !in remaining) || exists j :: j in e && j !in remaining && Occurs(c, e[j])
  }

  /** A visited key with an override that occurs nowhere else took that override. */
  predicate AloneReplaced(ov: map<string, Json>, e: map<string, Json>, remaining: set<string>, e': map<string, Json>)
    requires e'.Keys == e.Keys
  {
    forall k :: k in e && k !in remaining && k in ov && !OccursBeside(k, e) ==> e'[k] == ov[k]
  }

  /** Visiting one more key by using up its override keeps the walk's state. */
  lemma WalkedReplace(ov: map<string, Json>, e: map<string, Json>, remaining: set<string>,
                      left: map<string, Json>, e': map<string, Json>, key: string)
    requires Walked(ov, e, remaining, left, e') && key in remaining && key in left
    ensures Walked(ov, e, remaining - {key}, map k | k in left && k != key :: left[k], e'[key := left[key]])
  {
    var left1 := map k | k in left && k != key :: left[k];
    ReplaceFrame(ov, e, remaining, left, e', key, left1);
    ReplaceRefines(ov, e, remaining, left, e', key);
    ReplaceConsumed(ov, e, remaining, left, e', key, left1);
    ReplaceAlone(ov, e, remaining, left, e', key);
  }

  lemma ReplaceFrame(ov: map<string, Json>, e: map<string, Json>, remaining: set<string>,
                     left: map<string, Json>, e': map<string, Json>, key: string, left1: map<string, Json>)
    requires Walked(ov, e, remaining, left, e') && key in remaining && key in left
    requires left1 == map k | k in left && k != key :: left[k]
    ensures remaining - {key} <= e.Keys && e'[key := left[key]].Keys == e.Keys && Sub(left1, ov)
    ensures forall k :: k in remaining - {key} ==> e'[key := left[key]][k] == e[k]
    ensures forall k :: k in e && k !in remaining - {key} ==> k !in left1
  {
  }

  lemma ReplaceConsumed(ov: map<string, Json>, e: map<string, Json>, remaining: set<string>,
                        left: map<string, Json>, e': map<string, Json>, key: string, left1: map<string, Json>)
    requires Walked(ov, e, remaining, left, e') && key in remaining && key in left
    requires left1 == map k | k in left && k != key :: left[k]
    ensures ConsumedOccur(ov, e, remaining - {key}, left1)
  {
    forall c | c in ov && c !in left1
      ensures (c in e && c !in remaining - {key}) || exists j :: j in e && j !in remaining - {key} && Occurs(c, e[j])
    {
      if c in left {
        assert c == key;
      } else if !(c in e && c !in remaining) {
        var j :| j in e && j !in remaining && Occurs(c, e[j]);
        assert j in e && j !in remaining - {key} && Occurs(c, e[j]);
      }
    }
  }

  lemma ReplaceAlone(ov: map<string, Json>, e: map<string, Json>, remaining: set<string>,
                     left: map<string, Json>, e': map<string, Json>, key: string)
    requires Walked(ov, e, remaining, left, e') && key in remaining && key in left
    ensures AloneReplaced(ov, e, remaining - {key}, e'[key := left[key]])
  {
  }

  lemma ReplaceRefines(ov: map<string, Json>, e: map<string, Json>, remaining: set<string>,
                       left: map<string, Json>, e': map<string, Json>, key: string)
    requires Walked(ov, e, remaining, left, e') && key in remaining && key in left
    ensures VisitedRefine(ov, e, remaining - {key}, map k | k in left && k != key :: left[k], e'[key := left[key]])
  {
    var left1 := map k | k in left && k != key :: left[k];
    var e1 := e'[key := left[key]];
    forall k | k in e && k !in remaining - {key}
      ensures (k in Consumed(ov, left1) && e1[k] == ov[k]) || Refines(e[k], e1[k], Consumed(ov, left1))
    {
      if k != key && !(k in Consumed(ov, left) && e'[k] == ov[k]) {
        RefinesMono(e[k], e'[k], Consumed(ov, left), Consumed(ov, left1));
      }
    }
  }

  /**
   * Visiting one more key by searching its value (a `key` with no
   * override left) keeps the walk's state.
   */
  lemma WalkedSearch(ov: map<string, Json>, e: map<string, Json>, remaining: set<string>,
                     left: map<string, Json>, e': map<string, Json>, key: string,
                     left1: map<string, Json>, v: Json)
    requires Walked(ov, e, remaining, left, e') && key in remaining && key !in left
    requires Sub(left1, left) && Refines(e[key], v, Consumed(left, left1))
    requires forall c :: c in left && c !in left1 ==> Occurs(c, e[key])
    ensures Walked(ov, e, remaining - {key}, left1, e'[key := v])
  {
    SearchFrame(ov, e, remaining, left, e', key, left1, v);
    SearchRefines(ov, e, remaining, left, e', key, left1, v);
    SearchConsumed(ov, e, remaining, left, e', key, left1);
    SearchBeside(ov, e, remaining, left, e', key, left1, v);
  }

  lemma SearchFrame(ov: map<string, Json>, e: map<string, Json>, remaining: set<string>,
                    left: map<string, Json>, e': map<string, Json>, key: string,
                    left1: map<string, Json>, v: Json)
    requires Walked(ov, e, remaining, left, e') && key in remaining && key !in left
    requires Sub(left1, left)
    ensures remaining - {key} <= e.Keys && e'[key := v].Keys == e.Keys && Sub(left1, ov)
    ensures forall k :: k in remaining - {key} ==> e'[key := v][k] == e[k]
    ensures forall k :: k in e && k !in remaining - {key} ==> k !in left1
  {
  }

  lemma SearchBeside(ov: map<string, Json>, e: map<string, Json>, remaining: set<string>,
                     left: map<string, Json>, e': map<string, Json>, key: string,
                     left1: map<string, Json>, v: Json)
    requires Walked(ov, e, remaining, left, e') && key in remaining && key !in left
    ensures AloneReplaced(ov, e, remaining - {key}, e'[key := v])
  {
    assert key in ov ==> OccursBeside(key, e);
  }

  lemma SearchRefines(ov: map<string, Json>, e: map<string, Json>, remaining: set<string>,
                      left: map<string, Json>, e': map<string, Json>, key: string,
                      left1: map<string, Json>, v: Json)
    requires Walked(ov, e, remaining, left, e') && key in remaining && key !in left
    requires Sub(left1, left) && Refines(e[key], v, Consumed(left, left1))
    ensures VisitedRefine(ov, e, remaining - {key}, left1, e'[key := v])
  {
    var e1 := e'[key := v];
    RefinesMono(e[key], v, Consumed(left, left1), Consumed(ov, left1));
    forall k | k in e && k !in remaining - {key}
      ensures (k in Consumed(ov, left1) && e1[k] == ov[k]) || Refines(e[k], e1[k], Consumed(ov, left1))
    {
      if k != key && !(k in Consumed(ov, left) && e'[k] == ov[k]) {
        RefinesMono(e[k], e'[k], Consumed(ov, left), Consumed(ov, left1));
      }
    }
  }

  lemma SearchConsumed(ov: map<string, Json>, e: map<string, Json>, remaining: set<string>,
                       left: map<string, Json>, e': map<string, Json>, key: string,
                       left1: map<string, Json>)
    requires Walked(ov, e, remaining, left, e') && key in remaining && key !in left
    requires Sub(left1, left)
    requires forall c :: c in left && c !in left1 ==> Occurs(c, e[key])
    ensures ConsumedOccur(ov, e, remaining - {key}, left1)
  {
    forall c | c in ov && c !in left1
      ensures (c in e && c !in remaining - {key}) || exists j :: j in e && j !in remaining - {key} && Occurs(c, e[j])
    {
      if c in left {
        assert key in e && key !in remaining - {key} && Occurs(c, e[key]);
      }
    }
  }

  /**
   * `EventOverridesMap`: returns the overrides left and the new event
   * object. Only used-up overrides are applied, each top-level key has
   * used up its override if there was one, and a top-level key met
   * nowhere else takes its override value.
   */
  method OverridesMap(ov: map<string, Json>, e: map<string, Json>)
    returns (left: map<string, Json>, e': map<string, Json>, ghost P: set<Path>)
    ensures Sub(left, ov)
    ensures e'.Keys == e.Keys
    ensures ReplacedAt(JObj(e), JObj(e'), ov, P) && OnceEach(ov, left, P) && Missed(left, JObj(e), P)
    ensures FirstOnPath(P)
    ensures Refines(JObj(e), JObj(e'), Consumed(ov, left))
    ensures forall k :: k in e ==> k !in left
    ensures forall c :: c in ov && c !in left ==> Occurs(c, JObj(e))
    ensures forall k :: k in e && k in ov && !OccursBeside(k, e) ==> e'[k] == ov[k]
    decreases JObj(e), 0
  {
    left, e', P := ov, e, {};
    var remaining := e.Keys;
    while remaining != {}
      invariant Walked(ov, e, remaining, left, e')
      invariant Placed(ov, e, remaining, left, e', P)
      invariant MissedKeys(left, e, remaining, P)
      invariant FirstOnPath(P)
      decreases remaining
    {
      var key :| key in remaining;
      var element := e[key];
      if key in left {
        WalkedReplace(ov, e, remaining, left, e', key);
        PlacedReplace(ov, e, remaining, left, e', P, key, map k | k in left && k != key :: left[k]);
        MissedReplace(left, e, remaining, P, key);
        FirstOnPathReplace(P, key);
        e' := e'[key := left[key]];
        left := map k | k in left && k != key :: left[k];
        P := P + {[Key(key)]};
      } else {
        var left1, v, Q := SearchValue(left, element);
        WalkedSearch(ov, e, remaining, left, e', key, left1, v);
        PlacedSearch(ov, e, remaining, left, e', P, key, left1, v, Q);
        MissedSearch(left, e, remaining, P, key, left1, Q);
        FirstOnPathStep(P, Q, Key(key), left, left1);
        e', left, P := e'[key := v], left1, P + Prefixed(Key(key), Q);
      }
      remaining := remaining - {key};
    }
    MissedAll(left, e, P);
  }

  /** No override left is met at the visited keys of `e`. */
  predicate MissedKeys(left: map<string, Json>, e: map<string, Json>, remaining: set<string>, P: set<Path>)
  {
    forall c, k :: c in left && k in e && k !in remaining ==> !MeetsKey(c, e[k], k, P)
  }

  /** Once every key is visited, no override left is met in the object. */
  lemma MissedAll(left: map<string, Json>, e: map<string, Json>, P: set<Path>)
    requires MissedKeys(left, e, {}, P)
    ensures Missed(left, JObj(e), P)
  {
  }

  /** Replacing a key uses up its override, and the other keys are met as before. */
  lemma MissedReplace(left: map<string, Json>, e: map<string, Json>, remaining: set<string>, P: set<Path>, key: string)
    requires MissedKeys(left, e, remaining, P) && key in remaining && key in e
    requires forall p: Path :: p in P ==> |p| > 0 && p[0].Key? && p[0].key !in remaining
    ensures MissedKeys(map k | k in left && k != key :: left[k], e, remaining - {key}, P + {[Key(key)]})
  {
    var R: set<Path> := {[Key(key)]};
    forall c, k | c in left && c != key && k in e && k !in remaining - {key}
      ensures !MeetsKey(c, e[k], k, P + R)
    {
      if k != key {
        BelowFrame(P, R, Key(k));
        assert [Key(k)] !in R;
      }
    }
  }

  /** Searching a key's value, in which no override left afterwards is met, keeps the visited keys missed. */
  lemma MissedSearch(left: map<string, Json>, e: map<string, Json>, remaining: set<string>, P: set<Path>, key: string,
                     left1: map<string, Json>, Q: set<Path>)
    requires MissedKeys(left, e, remaining, P) && key in remaining && key in e && key !in left
    requires forall p: Path :: p in P ==> |p| > 0 && p[0].Key? && p[0].key !in remaining
    requires Sub(left1, left) && Missed(left1, e[key], Q) && forall q: Path :: q in Q ==> |q| > 0
    ensures MissedKeys(left1, e, remaining - {key}, P + Prefixed(Key(key), Q))
  {
    var R := Prefixed(Key(key), Q);
    PrefixedStart(Q, Key(key));
    forall c, k | c in left1 && k in e && k !in remaining - {key}
      ensures !MeetsKey(c, e[k], k, P + R)
    {
      if k != key {
        BelowFrame(P, R, Key(k));
        assert [Key(k)] !in R;
      } else {
        BelowPrefixed(P, Q, Key(key));
      }
    }
  }

  /** `EventOverridesArray`: the objects and arrays inside an array are searched in index order. */
  method OverridesArray(ov: map<string, Json>, xs: seq<Json>)
    returns (left: map<string, Json>, xs': seq<Json>, ghost P: set<Path>)
    ensures Sub(left, ov)
    ensures ReplacedAt(JArr(xs), JArr(xs'), ov, P) && OnceEach(ov, left, P) && Missed(left, JArr(xs), P)
    ensures FirstOnPath(P)
    ensures Refines(JArr(xs), JArr(xs'), Consumed(ov, left))
    ensures forall c :: c in ov && c !in left ==> Occurs(c, JArr(xs))
    decreases JArr(xs), 0
  {
    left, xs', P := ov, xs, {};
    var i := 0;
    while i < |xs|
      invariant 0 <= i <= |xs| && |xs'| == |xs|
      invariant Sub(left, ov)
      invariant PlacedArr(ov, xs, i, xs', left, P)
      invariant forall j :: i <= j < |xs| ==> xs'[j] == xs[j]
      invariant forall j :: 0 <= j < i ==> Refines(xs[j], xs'[j], Consumed(ov, left))
      invariant forall c :: c in ov && c !in left ==> exists j :: 0 <= j < i && Occurs(c, xs[j])
      invariant MissedElements(left, xs, i, P)
      invariant FirstOnPath(P)
    {
      var left0 := left;
      var v;
      ghost var Q;
      left, v, Q := SearchValue(left, xs[i]);
      RefinesMono(xs[i], v, Consumed(left0, left), Consumed(ov, left));
      PlacedArrStep(ov, xs, i, xs', left0, P, left, v, Q);
      MissedArrStep(left0, xs, i, P, left, Q);
      FirstOnPathStep(P, Q, Index(i), left0, left);
      xs', P := xs'[i := v], P + Prefixed(Index(i), Q);
      forall j | 0 <= j < i ensures Refines(xs[j], xs'[j], Consumed(ov, left)) {
        RefinesMono(xs[j], xs'[j], Consumed(ov, left0), Consumed(ov, left));
      }
      i := i + 1;
    }
  }

  /** No override left is met in the elements before `i`. */
  predicate MissedElements(left: map<string, Json>, xs: seq<Json>, i: nat, P: set<Path>)
    requires i <= |xs|
  {
    forall c, j :: c in left && 0 <= j < i ==> !Meets(c, xs[j], Below(P, Index(j)))
  }

  /** Searching element `i`, in which no override left afterwards is met, keeps the earlier elements missed. */
  lemma MissedArrStep(left: map<string, Json>, xs: seq<Json>, i: nat, P: set<Path>, left1: map<string, Json>, Q: set<Path>)
    requires i < |xs| && MissedElements(left, xs, i, P)
    requires forall p: Path :: p in P ==> |p| > 0 && p[0].Index? && p[0].index < i
    requires Sub(left1, left) && Missed(left1, xs[i], Q)
    ensures MissedElements(left1, xs, i + 1, P + Prefixed(Index(i), Q))
  {
    var R := Prefixed(Index(i), Q);
    PrefixedStart(Q, Index(i));
    forall c, j | c in left1 && 0 <= j < i + 1
      ensures !Meets(c, xs[j], Below(P + R, Index(j)))
    {
      if j == i {
        BelowPrefixed(P, Q, Index(i));
      } else {
        BelowFrame(P, R, Index(j));
      }
    }
  }

  /**
   * The value of a key that has no override left, or an array element:
   * objects and arrays are walked further, anything else is kept.
   */
  method SearchValue(ov: map<string, Json>, x: Json) returns (left: map<string, Json>, v: Json, ghost Q: set<Path>)
    ensures Sub(left, ov)
    ensures ReplacedAt(x, v, ov, Q) && OnceEach(ov, left, Q) && Missed(left, x, Q)
    ensures FirstOnPath(Q)
    ensures Refines(x, v, Consumed(ov, left))
    ensures forall c :: c in ov && c !in left ==> Occurs(c, x)
    decreases x, 1
  {
    left, v, Q := ov, x, {};
    if x.JObj? {
      var inner;
      left, inner, Q := OverridesMap(ov, x.fields);
      v := JObj(inner);
    } else if x.JArr? {
      var inner;
      left, inner, Q := OverridesArray(ov, x.items);
      v := JArr(inner);
    }
  }

  const InvalidEventPrefix := "invalid event: can not decode: "
  const InvalidOverridesPrefix := "invalid overrides: can not decode: "

  /**
   * `EventOverrides` on the decoded documents (decoding is an input): the
   * event's decode error is reported first; otherwise every event key is
   * kept (refined by used-up overrides), and each added key is a leftover
   * override with its own value.
   */
  method EventOverrides(overrides: Result<map<string, Json>, string>, event: Result<map<string, Json>, string>)
    returns (r: Result<map<string, Json>, string>)
    ensures event.Err? ==> r == Err(InvalidEventPrefix + event.error)
    ensures event.Ok? && overrides.Err? ==> r == Err(InvalidOverridesPrefix + overrides.error)
    ensures event.Ok? && overrides.Ok? ==> r.Ok? && event.value.Keys <= r.value.Keys
    ensures event.Ok? && overrides.Ok? ==>
      r.Ok? && exists left, P, w :: Applied(overrides.value, event.value, left, P, w) && r.value == w + left
    ensures event.Ok? && overrides.Ok? ==>
      Refines(JObj(event.value), JObj(map k | k in event.value :: r.value[k]), overrides.value)
    ensures event.Ok? && overrides.Ok? ==>
      forall k :: k in r.value && k !in event.value ==> k in overrides.value && r.value[k] == overrides.value[k]
    ensures event.Ok? && overrides.Ok? ==>
      forall k :: k in overrides.value && !Occurs(k, JObj(event.value)) ==> k in r.value && r.value[k] == overrides.value[k]
    ensures event.Ok? && overrides.Ok? ==>
      forall k :: k in event.value && k in overrides.value && !OccursBeside(k, event.value) ==> r.value[k] == overrides.value[k]
  {
    if event.Err? {
      return Err(InvalidEventPrefix + event.error);
    }
    if overrides.Err? {
      return Err(InvalidOverridesPrefix + overrides.error);
    }
    var ov := overrides.value;
    ghost var P;
    var left, walked;
    left, walked, P := OverridesMap(ov, event.value);
    RefinesMono(JObj(event.value), JObj(walked), Consumed(ov, left), ov);
    var result := AddLeftover(walked, left);
    assert (map k | k in event.value :: result[k]) == walked;
    assert Applied(ov, event.value, left, P, walked);
    r := Ok(result);
  }

  /** The loop adding each leftover override as a top-level key of the walked event. */
  method AddLeftover(walked: map<string, Json>, left: map<string, Json>) returns (result: map<string, Json>)
    ensures result == walked + left
  {
    result := walked;
    var rest := left.Keys;
    while rest != {}
      invariant rest <= left.Keys
      invariant result.Keys == walked.Keys + (left.Keys - rest)
      invariant forall k :: k in walked && (k !in left || k in rest) ==> result[k] == walked[k]
      invariant forall k :: k in left && k !in rest ==> result[k] == left[k]
      decreases rest
    {
      var key :| key in rest;
      result := result[key := left[key]];
      rest := rest - {key};
    }
  }

  /**
   * With no overrides the event comes back unchanged: what `EventOverrides`
   * promises for an empty override object leaves no other result.
   */
  lemma NoOverridesNoChange(e: map<string, Json>, r: map<string, Json>)
    requires r.Keys == e.Keys && Refines(JObj(e), JObj(map k | k in e :: r[k]), map[])
    ensures r == e
  {
    RefinesNothing(JObj(e), JObj(map k | k in e :: r[k]));
    assert r.Keys == e.Keys;
  }

  /**
   * A scalar that changed one level down was replaced by an override: its
   * two-step path is among the replaced ones.
   */
  lemma ChangedScalarReplaced(e: map<string, Json>, w: map<string, Json>, ov: map<string, Json>, P: set<Path>,
                              k1: string, k2: string, v1: Json, v2: Json)
    requires ReplacedAt(JObj(e), JObj(w), ov, P)
    requires k1 in e && k1 !in ov && e[k1] == JObj(map[k2 := v1]) && w[k1] == JObj(map[k2 := v2])
    requires !v1.JObj? && !v1.JArr? && v1 != v2
    ensures [Key(k1), Key(k2)] in P
  {
    assert PlacedKey(e[k1], w[k1], k1, ov, P);
    assert ReplacedAt(e[k1], w[k1], ov, Below(P, Key(k1)));
    var f := map[k2 := v1];
    assert PlacedKey(f[k2], map[k2 := v2][k2], k2, ov, Below(P, Key(k1)));
    assert [Key(k2)] in Below(P, Key(k1));
    var p :| p in P && |p| > 0 && p[0] == Key(k1) && p[1..] == [Key(k2)];
    assert p == [Key(k1), Key(k2)];
  }

  /**
   * An override is used at one place only: with `{"a": 9}` over
   * `{"x": {"a": 1}, "y": {"a": 2}}`, no outcome of the walk has both
   * nested `"a"` keys replaced.
   */
  lemma OverrideUsedOnce(left: map<string, Json>, P: set<Path>, w: map<string, Json>)
    requires Applied(map["a" := JNum(9)],
                     map["x" := JObj(map["a" := JNum(1)]), "y" := JObj(map["a" := JNum(2)])], left, P, w)
    ensures !(w["x"] == JObj(map["a" := JNum(9)]) && w["y"] == JObj(map["a" := JNum(9)]))
  {
    var ov := map["a" := JNum(9)];
    var e := map["x" := JObj(map["a" := JNum(1)]), "y" := JObj(map["a" := JNum(2)])];
    if w["x"] == JObj(map["a" := JNum(9)]) && w["y"] == JObj(map["a" := JNum(9)]) {
      ChangedScalarReplaced(e, w, ov, P, "x", "a", JNum(1), JNum(9));
      ChangedScalarReplaced(e, w, ov, P, "y", "a", JNum(2), JNum(9));
      assert false;
    }
  }

  /** A path reaching into the scalar under key `k` can only be the path to `k` itself: that value was replaced. */
  lemma ScalarKeyReplaced(a: Json, b: Json, k: string, ov: map<string, Json>, B: set<Path>, q: Path)
    requires PlacedKey(a, b, k, ov, B) && !a.JObj? && !a.JArr?
    requires q in B && |q| > 0 && q[0] == Key(k)
    ensures [Key(k)] in B && k in ov && b == ov[k]
  {
    assert q[1..] in Below(B, Key(k));
    if [Key(k)] !in B {
      assert false;
    }
  }

  /** A key of an object held, unreplaced, under key `k` is met by the walk. */
  lemma MetBelowKey(c: string, f: map<string, Json>, k: string, g: map<string, Json>, P: set<Path>)
    requires k in f && f[k] == JObj(g) && c in g && [Key(k)] !in P
    ensures Meets(c, JObj(f), P)
  {
    assert MeetsKey(c, g[c], c, Below(P, Key(k)));
    assert MeetsKey(c, f[k], k, P);
  }

  /**
   * A path through the key `k1`, which has no override, into the one-key
   * object under it ends at that object's scalar, which took its override.
   */
  lemma NestedScalarTaken(e: map<string, Json>, w: map<string, Json>, ov: map<string, Json>, P: set<Path>,
                          k1: string, k2: string, v1: Json, p: Path)
    requires ReplacedAt(JObj(e), JObj(w), ov, P) && (forall q :: q in P ==> LastKey(q) in ov)
    requires k1 in e && k1 !in ov && e[k1] == JObj(map[k2 := v1]) && !v1.JObj? && !v1.JArr?
    requires p in P && p[0] == Key(k1) && |p| >= 2
    ensures k2 in ov && w[k1] == JObj(map[k2 := ov[k2]])
  {
    assert LastKey([Key(k1)]) !in ov;
    var B := Below(P, Key(k1));
    assert PlacedKey(e[k1], w[k1], k1, ov, P);
    assert ReplacedAt(e[k1], w[k1], ov, B);
    assert p[1..] in B;
    ScalarKeyReplaced(v1, w[k1].fields[k2], k2, ov, B, p[1..]);
    assert w[k1].fields == map[k2 := ov[k2]];
  }

  /**
   * An override for a key one level down is taken there: over an object
   * whose only key `k1` holds a one-key object `{k2: v1}`, the override
   * `{k2: v2}` always replaces `v1` and is not added at the top level.
   */
  lemma NestedKeyTaken(ov: map<string, Json>, e: map<string, Json>, left: map<string, Json>, P: set<Path>,
                       w: map<string, Json>, k1: string, k2: string, v1: Json, v2: Json)
    requires ov == map[k2 := v2] && e == map[k1 := JObj(map[k2 := v1])] && k1 != k2 && !v1.JObj? && !v1.JArr?
    requires Applied(ov, e, left, P, w)
    ensures left == map[] && w == map[k1 := JObj(map[k2 := v2])]
  {
    assert LastKey([Key(k1)]) !in ov;
    MetBelowKey(k2, e, k1, map[k2 := v1], P);
    assert left == map[];
    var p :| p in P && LastKey(p) == k2;
    NestedScalarTaken(e, w, ov, P, k1, k2, v1, p);
  }

  /**
   * Overrides reach keys inside nested objects: with `{"z": 8}` over
   * `{"x": {"z": 1}}` every outcome of the walk is `{"x": {"z": 8}}`, with
   * no override left to add at the top level.
   */
  lemma NestedKeyReached(left: map<string, Json>, P: set<Path>, w: map<string, Json>)
    requires Applied(map["z" := JNum(8)], map["x" := JObj(map["z" := JNum(1)])], left, P, w)
    ensures left == map[] && w == map["x" := JObj(map["z" := JNum(8)])]
  {
    assert "x" != "z";
    NestedKeyTaken(map["z" := JNum(8)], map["x" := JObj(map["z" := JNum(1)])], left, P, w, "x", "z", JNum(1), JNum(8));
  }

  /**
   * A path through the key `k1`, which has no override, into the one-key
   * object `{k2: ...}` under it stops at `k2`: that value took its override.
   */
  lemma OuterPathTaken(e: map<string, Json>, w: map<string, Json>, ov: map<string, Json>, P: set<Path>,
                       k1: string, k2: string, g: map<string, Json>, p: Path)
    requires ReplacedAt(JObj(e), JObj(w), ov, P) && FirstOnPath(P) && (forall q :: q in P ==> LastKey(q) in ov)
    requires k1 in e && k1 !in ov && e[k1] == JObj(g) && g.Keys == {k2}
    requires p in P && p[0] == Key(k1) && LastKey(p) == k2
    ensures k2 in ov && w[k1] == JObj(map[k2 := ov[k2]])
  {
    assert LastKey([Key(k1)]) !in ov;
    var B := Below(P, Key(k1));
    assert PlacedKey(e[k1], w[k1], k1, ov, P);
    assert ReplacedAt(JObj(g), w[k1], ov, B);
    assert p[1..] in B;
    assert p[1] == Key(k2) == Key(LastKey(p));
    assert |p| == 2;
    assert p[1..] == [Key(k2)];
    assert PlacedKey(g[k2], w[k1].fields[k2], k2, ov, B);
    assert w[k1].fields == map[k2 := ov[k2]];
  }

  /**
   * An override is taken at the first key of its name on the way down and
   * not inside the value it replaced: `{k2: v2}` over `{k1: {k2: {k2: v1}}}`
   * always gives `{k1: {k2: v2}}`.
   */
  lemma OuterKeyTaken(ov: map<string, Json>, e: map<string, Json>, left: map<string, Json>, P: set<Path>,
                      w: map<string, Json>, k1: string, k2: string, v1: Json, v2: Json)
    requires ov == map[k2 := v2] && e == map[k1 := JObj(map[k2 := JObj(map[k2 := v1])])] && k1 != k2
    requires Applied(ov, e, left, P, w)
    ensures left == map[] && w == map[k1 := JObj(map[k2 := v2])]
  {
    var g := map[k2 := JObj(map[k2 := v1])];
    assert LastKey([Key(k1)]) !in ov;
    MetBelowKey(k2, e, k1, g, P);
    assert left == map[];
    var p :| p in P && LastKey(p) == k2;
    assert p[0] == Key(k1);
    OuterPathTaken(e, w, ov, P, k1, k2, g, p);
  }

  /** `{"a": 9}` over `{"x": {"a": {"a": 1}}}` replaces the outer `"a"`: every outcome is `{"x": {"a": 9}}`. */
  lemma AncestorKeyTaken(left: map<string, Json>, P: set<Path>, w: map<string, Json>)
    requires Applied(map["a" := JNum(9)], map["x" := JObj(map["a" := JObj(map["a" := JNum(1)])])], left, P, w)
    ensures left == map[] && w == map["x" := JObj(map["a" := JNum(9)])]
  {
    assert "x" != "a";
    OuterKeyTaken(map["a" := JNum(9)], map["x" := JObj(map["a" := JObj(map["a" := JNum(1)])])], left, P, w,
                  "x", "a", JNum(1), JNum(9));
  }
}
