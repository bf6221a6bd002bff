/**
 * The tree normalizer: `transformTokens` of the token parser, and the parser's entry point.
 *
 * The walk goes through a parsed token document's entries in order. Keys that start with
 * `$` are metadata and are skipped. Children that are not objects (null, booleans, numbers,
 * strings) are dropped. Every other child is either a token, when it has a `$value`,
 * which becomes a `{value, type, description}` leaf, or a group, which is walked in turn.
 * The path of keys from the root goes along, so that the reference qualifier can see
 * whether a token lives under `colors`.
 */
module Tokens {
  import opened Json
  import opened References

  /**
   * The normalized tree handed to the formatter. A leaf's `type` and `description` are
   * `undefined` (None) when the source token has no `$type` or `$description`.
   */
  datatype Tree =
    | Leaf(value: Value, tokenType: Option<Value>, description: Option<Value>)
    | Group(children: seq<(string, Tree)>)

  /** What the parser hands back for a whole document. */
  datatype Outcome =
    | Parsed(tokens: seq<(string, Tree)>)
    | TypeError  // `Object.entries(null)` throws on a document that is JSON `null`

  /** `key.startsWith('$')`. */
  predicate IsMetadataKey(key: string) {
    "$" <= key
  }

  /** `value.$value !== undefined`. */
  predicate IsToken(v: Value) {
    Member(v, "$value").Some?
  }

  /** An entry the walk keeps: a key that is not metadata, holding an object or an array. */
  predicate Kept(e: (string, Value)) {
    !IsMetadataKey(e.0) && IsObject(e.1)
  }

  /** The entries the walk keeps, in their original order. */
  function KeptEntries(es: seq<(string, Value)>): (r: seq<(string, Value)>)
    ensures |r| <= |es|
    ensures forall k :: 0 <= k < |r| ==> Kept(r[k])
    ensures forall e :: e in r <==> e in es && Kept(e)
  {
    if es == [] then []
    else
      var last := es[|es| - 1];
      assert es == es[..|es| - 1] + [last];
      KeptEntries(es[..|es| - 1]) + (if Kept(last) then [last] else [])
  }

  /** The keys of an entry sequence, in order. */
  function Keys<T>(ms: seq<(string, T)>): seq<string> {
    seq(|ms|, k requires 0 <= k < |ms| => ms[k].0)
  }

  // ----- The walk, as functions -----

  /** The output for one kept child at `path` (the path already ends with the child's key). */
  function NormalizeChild(v: Value, path: seq<string>): Tree
    requires IsObject(v)
    decreases v, |Entries(v)| + 2
  {
    if IsToken(v) then
      Leaf(TransformReference(Member(v, "$value").value, path), Member(v, "$type"), Member(v, "$description"))
    else
      Group(Normalize(v, path))
  }

  /** `transformTokens(v, path)`: the entries of the result object, in insertion order. */
  function Normalize(v: Value, path: seq<string>): seq<(string, Tree)>
    requires IsObject(v)
    decreases v, |Entries(v)| + 1
  {
    NormalizePrefix(v, path, |Entries(v)|)
  }

  /** The result object after the loop has been through the first `n` entries of `v`. */
  function NormalizePrefix(v: Value, path: seq<string>, n: nat): seq<(string, Tree)>
    requires IsObject(v) && n <= |Entries(v)|
    decreases v, n
  {
    if n == 0 then []
    else
      var done := NormalizePrefix(v, path, n - 1);
      var (key, child) := Entries(v)[n - 1];
      ChildSmaller(v, n - 1);
      if IsMetadataKey(key) || !IsObject(child) then done
      else done + [(key, NormalizeChild(child, path + [key]))]
  }

  // ----- The walk, as the source runs it -----

  /**
   * `transformTokens(obj, path)`: a fresh result filled by a loop over `Object.entries(obj)`,
   * recursing into groups with the path extended by the group's key.
   */
  method TransformTokens(obj: Value, path: seq<string>) returns (result: seq<(string, Tree)>)
    requires IsObject(obj)
    ensures result == Normalize(obj, path)
    decreases obj
  {
    var entries := Entries(obj);
    result := [];
    for i := 0 to |entries|
      invariant result == NormalizePrefix(obj, path, i)
    {
      var (key, value) := entries[i];
      if IsMetadataKey(key) {
        continue;
      }
      if IsObject(value) {
        if Member(value, "$value").Some? {
          var leaf := Leaf(TransformReference(Member(value, "$value").value, path + [key]),
                           Member(value, "$type"), Member(value, "$description"));
          result := result + [(key, leaf)];
        } else {
          ChildSmaller(obj, i);
          var children := TransformTokens(value, path + [key]);
          result := result + [(key, Group(children))];
        }
      }
    }
  }

  /**
   * The parser's `parse` callback on an already parsed document: `transformTokens(tokens)`
   * from the empty path. `Object.entries` throws on null, and a boolean, number or string
   * document yields no object entries, so its result is empty.
   */
  method Parse(doc: Value) returns (r: Outcome)
    ensures doc.Null? <==> r.TypeError?
    ensures IsObject(doc) ==> r == Parsed(Normalize(doc, []))
    ensures !doc.Null? && !IsObject(doc) ==> r == Parsed([])
  {
    if doc.Null? {
      r := TypeError;
    } else if IsObject(doc) {
      var tokens := TransformTokens(doc, []);
      r := Parsed(tokens);
    } else {
      r := Parsed([]);
    }
  }

  // ----- What the walk produces -----

  lemma {:induction false} NormalizePrefixShape(v: Value, path: seq<string>, n: nat)
    requires IsObject(v) && n <= |Entries(v)|
    ensures var out, kept := NormalizePrefix(v, path, n), KeptEntries(Entries(v)[..n]);
      |out| == |kept| &&
      forall k :: 0 <= k < |out| ==>
        out[k] == (kept[k].0, NormalizeChild(kept[k].1, path + [kept[k].0]))
    decreases n
  {
    if n > 0 {
      NormalizePrefixShape(v, path, n - 1);
      NormalizePrefixStep(v, path, n);
    }
  }

  /** One more entry adds its output exactly when the filter keeps it. */
  lemma NormalizePrefixStep(v: Value, path: seq<string>, n: nat)
    requires IsObject(v) && 0 < n <= |Entries(v)|
    ensures var e := Entries(v)[n - 1];
      && KeptEntries(Entries(v)[..n]) == KeptEntries(Entries(v)[..n - 1]) + (if Kept(e) then [e] else [])
      && NormalizePrefix(v, path, n) == NormalizePrefix(v, path, n - 1) +
           (if Kept(e) then [(e.0, NormalizeChild(e.1, path + [e.0]))] else [])
  {
    var all := Entries(v);
    var es := all[..n];
    assert es[..n - 1] == all[..n - 1];
    assert es[n - 1] == all[n - 1];
  }

  /**
   * The output's entries are the kept entries of the input, in the same order: a key that
   * is not metadata, holding an object. A kept child with `$value` becomes a leaf carrying
   * the qualified `$value`, `$type` and `$description`; any other kept child becomes the
   * group its own walk produces, with the path extended by its key.
   */
  lemma NormalizeShape(v: Value, path: seq<string>)
    requires IsObject(v)
    ensures var out, kept := Normalize(v, path), KeptEntries(Entries(v));
      && Keys(out) == Keys(kept)
      && (forall k :: 0 <= k < |out| && IsToken(kept[k].1) ==>
            out[k].1 == Leaf(TransformReference(Member(kept[k].1, "$value").value, path + [kept[k].0]),
                             Member(kept[k].1, "$type"), Member(kept[k].1, "$description")))
      && (forall k :: 0 <= k < |out| && !IsToken(kept[k].1) ==>
            out[k].1 == Group(Normalize(kept[k].1, path + [kept[k].0])))
  {
    assert Entries(v)[..|Entries(v)|] == Entries(v);
    NormalizePrefixShape(v, path, |Entries(v)|);
  }

  /** A group without kept entries (only metadata, scalars or nulls) comes out empty. */
  lemma EmptyGroup(v: Value, path: seq<string>)
    requires IsObject(v) && !IsToken(v)
    requires forall k :: 0 <= k < |Entries(v)| ==> !Kept(Entries(v)[k])
    ensures NormalizeChild(v, path) == Group([])
  {
    NormalizeShape(v, path);
    NothingKept(Entries(v));
  }

  lemma {:induction false} NothingKept(es: seq<(string, Value)>)
    requires forall k :: 0 <= k < |es| ==> !Kept(es[k])
    ensures KeptEntries(es) == []
  {
    if es != [] {
      NothingKept(es[..|es| - 1]);
    }
  }

  /** Filtering commutes with concatenation, so the kept entries keep their relative order. */
  lemma {:induction false} KeptEntriesAppend(a: seq<(string, Value)>, b: seq<(string, Value)>)
    ensures KeptEntries(a + b) == KeptEntries(a) + KeptEntries(b)
    decreases |b|
  {
    if b == [] {
      assert a + b == a;
    } else {
      var last := b[|b| - 1];
      assert (a + b)[..|a + b| - 1] == a + b[..|b| - 1];
      KeptEntriesAppend(a, b[..|b| - 1]);
    }
  }

  /** The filter keeps distinct keys distinct. */
  lemma {:induction false} KeptEntriesDistinct(es: seq<(string, Value)>)
    requires DistinctKeys(es)
    ensures DistinctKeys(KeptEntries(es))
  {
    if es != [] {
      var init, last := es[..|es| - 1], es[|es| - 1];
      assert forall i :: 0 <= i < |init| ==> init[i] == es[i];
      KeptEntriesDistinct(init);
      var kept := KeptEntries(init);
      forall i | 0 <= i < |kept|
        ensures kept[i].0 != last.0
      {
        assert kept[i] in init;
        var m :| 0 <= m < |init| && init[m] == kept[i];
        assert es[m] == kept[i];
      }
    }
  }

  /**
   * When the input's keys are distinct, so are the output's. Arrays always qualify
   * (`ArrayEntries`), so an array group comes out as an object with distinct index keys.
   */
  lemma NormalizeKeysDistinct(v: Value, path: seq<string>)
    requires IsObject(v) && DistinctKeys(Entries(v))
    ensures DistinctKeys(Normalize(v, path))
  {
    var out, kept := Normalize(v, path), KeptEntries(Entries(v));
    KeptEntriesDistinct(Entries(v));
    NormalizeShape(v, path);
    forall i, j | 0 <= i < j < |out|
      ensures out[i].0 != out[j].0
    {
      assert Keys(out)[i] == Keys(kept)[i] && Keys(out)[j] == Keys(kept)[j];
    }
  }

  /**
   * No group key starting with `$` appears anywhere in a tree. A leaf's value, type and
   * description are not looked at: they are copied from the token as they are.
   */
  predicate NoMetadataKeys(t: Tree) {
    t.Group? ==>
      forall k :: 0 <= k < |t.children| ==>
        !IsMetadataKey(t.children[k].0) && NoMetadataKeys(t.children[k].1)
  }

  /**
   * Metadata keys never become group keys, at any depth. A token's `$value`, `$type` and
   * `$description` are copied into its leaf as they are, so `$` keys inside them remain.
   */
  lemma {:induction false} NormalizeNoMetadata(v: Value, path: seq<string>)
    requires IsObject(v)
    ensures NoMetadataKeys(Group(Normalize(v, path)))
    decreases v
  {
    var out, kept := Normalize(v, path), KeptEntries(Entries(v));
    NormalizeShape(v, path);
    forall k | 0 <= k < |out|
      ensures !IsMetadataKey(out[k].0) && NoMetadataKeys(out[k].1)
    {
      assert Keys(out)[k] == Keys(kept)[k];
      if !IsToken(kept[k].1) {
        assert kept[k] in Entries(v);
        var i :| 0 <= i < |Entries(v)| && Entries(v)[i] == kept[k];
        ChildSmaller(v, i);
        NormalizeNoMetadata(kept[k].1, path + [kept[k].0]);
      }
    }
  }

  /**
   * The output depends on the path only through whether its first segment is `colors`:
   * qualification is "am I inside the colors subtree", nothing finer.
   */
  lemma {:induction false} NormalizeDependsOnRoot(v: Value, p: seq<string>, q: seq<string>)
    requires IsObject(v) && |p| > 0 && |q| > 0 && InColors(p) == InColors(q)
    ensures Normalize(v, p) == Normalize(v, q)
    decreases v
  {
    var out, kept := Normalize(v, p), KeptEntries(Entries(v));
    NormalizeShape(v, p);
    NormalizeShape(v, q);
    var other := Normalize(v, q);
    forall k | 0 <= k < |out| ensures out[k] == other[k] {
      var (key, child) := kept[k];
      assert Keys(out)[k] == key == Keys(other)[k];
      assert InColors(p + [key]) == InColors(q + [key]);
      if IsToken(child) {
        QualifyDependsOnRoot(Member(child, "$value").value, p + [key], q + [key]);
      } else {
        assert kept[k] in Entries(v);
        var i :| 0 <= i < |Entries(v)| && Entries(v)[i] == kept[k];
        ChildSmaller(v, i);
        NormalizeDependsOnRoot(child, p + [key], q + [key]);
      }
    }
  }

  lemma QualifyDependsOnRoot(x: Value, p: seq<string>, q: seq<string>)
    requires InColors(p) == InColors(q)
    ensures TransformReference(x, p) == TransformReference(x, q)
  {
    if x.Str? {
      assert QualifyPieces(Scan(x.s), p) == QualifyPieces(Scan(x.s), q);
    }
  }
}
