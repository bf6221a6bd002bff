/**
 * The reference qualifier: `transformReference` of the token parser.
 *
 * A string value is cut, left to right, into the matches of the global pattern
 * `/\{([^}]+)\}/g` and the characters between them (`Scan`). `String.replace` then
 * copies the characters between matches and puts the callback's answer in place
 * of each match. The callback leaves a reference alone when it already starts with
 * one of the six root names followed by a dot. Otherwise, inside the `colors`
 * subtree, it prefixes the reference with `colors.`. Anywhere else it leaves the
 * reference alone too.
 */
module References {
  import opened Json

  /** One piece of a scanned string: a character outside any match, or the capture of a match. */
  datatype Piece = Text(c: char) | Ref(name: string)

  /** Index of the first '}' in `t`, or |t| when `t` has none. */
  function CloseIndex(t: string): (j: nat)
    ensures j <= |t|
    ensures forall k :: 0 <= k < j ==> t[k] != '}'
    ensures j < |t| ==> t[j] == '}'
  {
    if t == [] || t[0] == '}' then 0 else 1 + CloseIndex(t[1..])
  }

  /**
   * The matches of `/\{([^}]+)\}/g` in `s`, scanning from the left. A match starts at a '{'
   * whose first following '}' is at least two characters further on; its capture is
   * everything in between (which may hold '{'), and scanning resumes after the '}'.
   * Where no match starts, the character is kept as text and scanning moves on by one.
   */
  function Scan(s: string): (ps: seq<Piece>)
    ensures forall k :: 0 <= k < |ps| && ps[k].Ref? ==> ps[k].name != [] && '}' !in ps[k].name
    decreases |s|
  {
    if s == [] then []
    else if s[0] == '{' && 1 <= CloseIndex(s[1..]) < |s| - 1 then
      var j := CloseIndex(s[1..]);
      [Ref(s[1..j + 1])] + Scan(s[j + 2..])
    else
      [Text(s[0])] + Scan(s[1..])
  }

  /** The text a piece stands for: the character itself, or the whole match `{name}`. */
  function RenderPiece(p: Piece): string {
    match p
    case Text(c) => [c]
    case Ref(name) => "{" + name + "}"
  }

  function Render(ps: seq<Piece>): string {
    if ps == [] then [] else RenderPiece(ps[0]) + Render(ps[1..])
  }

  /** `ref.startsWith(...)` for one of the six root namespaces, each followed by a dot. */
  predicate HasRootPrefix(name: string) {
    || "colors." <= name
    || "typography." <= name
    || "spacing." <= name
    || "borderRadius." <= name
    || "shadows." <= name
    || "transitions." <= name
  }

  /** `currentPath[0] === 'colors'`; an empty path has no first segment. */
  predicate InColors(path: seq<string>) {
    |path| > 0 && path[0] == "colors"
  }

  /**
   * The replace callback, stated on the capture: the callback answers `{` + QualifiedName + `}`,
   * which is the match itself whenever QualifiedName returns the capture unchanged.
   */
  function QualifiedName(name: string, path: seq<string>): (r: string)
    ensures r == name || r == "colors." + name
    ensures HasRootPrefix(name) ==> r == name
    ensures InColors(path) ==> HasRootPrefix(r)
    ensures !InColors(path) ==> r == name
  {
    if HasRootPrefix(name) then name
    else if InColors(path) then "colors." + name
    else name
  }

  /** Every match rewritten through the callback, every text character kept. */
  function QualifyPieces(ps: seq<Piece>, path: seq<string>): (r: seq<Piece>)
    ensures |r| == |ps|
    ensures forall k :: 0 <= k < |ps| && ps[k].Text? ==> r[k] == ps[k]
    ensures forall k :: 0 <= k < |ps| && ps[k].Ref? ==> r[k] == Ref(QualifiedName(ps[k].name, path))
  {
    if ps == [] then []
    else
      var head := match ps[0]
        case Text(c) => Text(c)
        case Ref(name) => Ref(QualifiedName(name, path));
      [head] + QualifyPieces(ps[1..], path)
  }

  /** `value.replace(/\{([^}]+)\}/g, callback)` for the token at `path`. */
  function Qualify(s: string, path: seq<string>): string {
    Render(QualifyPieces(Scan(s), path))
  }

  /**
   * `transformReference(value, currentPath)`: strings are qualified, every other value is
   * returned as it is; outside the `colors` subtree nothing changes at all.
   */
  function TransformReference(v: Value, path: seq<string>): (r: Value)
    ensures !v.Str? ==> r == v
    ensures v.Str? <==> r.Str?
    ensures !InColors(path) ==> r == v
  {
    if v.Str? then
      var q := Qualify(v.s, path);
      assert !InColors(path) ==> q == v.s by {
        if !InColors(path) { QualifyOutsideColors(v.s, path); }
      }
      Str(q)
    else v
  }

  // ----- Scanning loses nothing -----

  lemma CloseIndexOfAppend(a: string, b: string)
    requires '}' !in a
    ensures CloseIndex(a + "}" + b) == |a|
  {
    var t := a + "}" + b;
    assert t[|a|] == '}';
    assert forall k :: 0 <= k < |a| ==> t[k] == a[k];
  }

  lemma CloseIndexNone(t: string)
    requires '}' !in t
    ensures CloseIndex(t) == |t|
  {
    assert forall k :: 0 <= k < |t| ==> t[k] in t;
  }

  lemma RenderCons(p: Piece, ps: seq<Piece>)
    ensures Render([p] + ps) == RenderPiece(p) + Render(ps)
  {
    assert ([p] + ps)[0] == p;
    assert ([p] + ps)[1..] == ps;
  }

  /** The pieces spell out the scanned string: text between matches is never lost or altered. */
  lemma {:induction false} ScanRender(s: string)
    ensures Render(Scan(s)) == s
    decreases |s|
  {
    if s == [] {
    } else if s[0] == '{' && 1 <= CloseIndex(s[1..]) < |s| - 1 {
      var j := CloseIndex(s[1..]);
      var name, tail := s[1..j + 1], s[j + 2..];
      assert Scan(s) == [Ref(name)] + Scan(tail);
      ScanRender(tail);
      RenderCons(Ref(name), Scan(tail));
      assert s[1..][j] == '}';
      SplitAtMatch(s, j + 1);
    } else {
      assert Scan(s) == [Text(s[0])] + Scan(s[1..]);
      ScanRender(s[1..]);
      RenderCons(Text(s[0]), Scan(s[1..]));
      assert s == [s[0]] + s[1..];
    }
  }

  lemma SplitAtMatch(s: string, e: nat)
    requires 0 < e < |s| && s[0] == '{' && s[e] == '}'
    ensures s == "{" + s[1..e] + "}" + s[e + 1..]
  {
    assert s == s[..1] + s[1..e] + s[e..e + 1] + s[e + 1..];
  }

  // ----- Which piece sequences Scan produces -----

  /**
   * The piece sequences that `Scan` gives back unchanged when rendered and scanned again:
   * every capture is non-empty and free of '}', and a '{' kept as text is one at which the
   * pattern cannot match, because a '}' follows it at once or no '}' follows it at all.
   */
  predicate Canonical(ps: seq<Piece>) {
    ps == [] ||
    ((match ps[0]
      case Ref(name) => name != [] && '}' !in name
      case Text(c) => c == '{' ==> (|ps| > 1 && ps[1] == Text('}')) || '}' !in Render(ps[1..]))
     && Canonical(ps[1..]))
  }

  lemma {:induction false} ScanCanonical(s: string)
    ensures Canonical(Scan(s))
    decreases |s|
  {
    if s == [] {
    } else if s[0] == '{' && 1 <= CloseIndex(s[1..]) < |s| - 1 {
      var j := CloseIndex(s[1..]);
      ScanCanonical(s[j + 2..]);
      assert ([Ref(s[1..j + 1])] + Scan(s[j + 2..]))[1..] == Scan(s[j + 2..]);
    } else {
      var ps := Scan(s);
      ScanCanonical(s[1..]);
      assert ps[1..] == Scan(s[1..]);
      if s[0] == '{' {
        if CloseIndex(s[1..]) < |s| - 1 {
          assert s[1] == '}';
          assert Scan(s[1..])[0] == Text('}');
        } else {
          ScanRender(s[1..]);
        }
      }
    }
  }

  /** Scanning the rendering of a canonical piece sequence gives that sequence back. */
  lemma {:induction false} RenderScan(ps: seq<Piece>)
    requires Canonical(ps)
    ensures Scan(Render(ps)) == ps
  {
    if ps != [] {
      var s := Render(ps);
      var rest := Render(ps[1..]);
      RenderScan(ps[1..]);
      assert ps == [ps[0]] + ps[1..];
      match ps[0]
      case Ref(name) =>
        assert s == "{" + name + "}" + rest;
        RefScan(name, rest);
      case Text(c) =>
        assert s == [c] + rest;
        assert s[1..] == rest;
        if c == '{' {
          if |ps| > 1 && ps[1] == Text('}') {
            assert ps[1..] == [ps[1]] + ps[2..];
            RenderCons(ps[1], ps[2..]);
            assert rest[0] == '}';
          } else {
            CloseIndexNone(rest);
          }
        }
    }
  }

  /** A match followed by more text: the scan takes the match and carries on after it. */
  lemma RefScan(name: string, rest: string)
    requires name != [] && '}' !in name
    ensures Scan("{" + name + "}" + rest) == [Ref(name)] + Scan(rest)
  {
    var s := "{" + name + "}" + rest;
    assert s[1..] == name + "}" + rest;
    CloseIndexOfAppend(name, rest);
    assert s[1..|name| + 1] == name;
    assert s[|name| + 2..] == rest;
  }

  // ----- Qualification -----

  /** A rendering without '}' holds no match, so qualification has nothing to change in it. */
  lemma NoCloseNoRefs(ps: seq<Piece>, path: seq<string>)
    requires '}' !in Render(ps)
    ensures QualifyPieces(ps, path) == ps
  {
    if ps != [] {
      var head := RenderPiece(ps[0]);
      assert Render(ps) == head + Render(ps[1..]);
      assert head[|head| - 1] in Render(ps);
      assert ps[0].Text?;
      NoCloseNoRefs(ps[1..], path);
      assert ps == [ps[0]] + ps[1..];
    }
  }

  lemma {:induction false} QualifyCanonical(ps: seq<Piece>, path: seq<string>)
    requires Canonical(ps)
    ensures Canonical(QualifyPieces(ps, path))
  {
    if ps != [] {
      var qs := QualifyPieces(ps, path);
      QualifyCanonical(ps[1..], path);
      assert qs[1..] == QualifyPieces(ps[1..], path);
      if ps[0] == Text('{') && !(|ps| > 1 && ps[1] == Text('}')) {
        NoCloseNoRefs(ps[1..], path);
      }
    }
  }

  lemma {:induction false} QualifyPiecesIdempotent(ps: seq<Piece>, path: seq<string>)
    ensures QualifyPieces(QualifyPieces(ps, path), path) == QualifyPieces(ps, path)
  {
    var qs := QualifyPieces(ps, path);
    var rs := QualifyPieces(qs, path);
    forall k | 0 <= k < |ps| ensures rs[k] == qs[k] {
      if ps[k].Ref? {
        var name := ps[k].name;
        var once := QualifiedName(name, path);
        if !HasRootPrefix(name) && InColors(path) {
          assert "colors." <= once;
        }
      }
    }
  }

  /** Outside the `colors` subtree every callback returns its match: the string is unchanged. */
  lemma QualifyOutsideColors(s: string, path: seq<string>)
    requires !InColors(path)
    ensures Qualify(s, path) == s
  {
    var ps := Scan(s);
    var qs := QualifyPieces(ps, path);
    assert qs == ps;
    ScanRender(s);
  }

  /**
   * Inside the `colors` subtree the result holds the same matches at the same places:
   * text between them is copied verbatim, and each capture `r` without a root prefix
   * comes back as `colors.r`, so every reference in the result is fully qualified.
   */
  lemma QualifyInColors(s: string, path: seq<string>)
    requires InColors(path)
    ensures var before, after := Scan(s), Scan(Qualify(s, path));
      && |after| == |before|
      && (forall k :: 0 <= k < |before| && before[k].Text? ==> after[k] == before[k])
      && (forall k :: 0 <= k < |before| && before[k].Ref? && HasRootPrefix(before[k].name) ==>
            after[k] == before[k])
      && (forall k :: 0 <= k < |before| && before[k].Ref? && !HasRootPrefix(before[k].name) ==>
            after[k] == Ref("colors." + before[k].name))
      && (forall k :: 0 <= k < |after| && after[k].Ref? ==> HasRootPrefix(after[k].name))
  {
    var ps := Scan(s);
    ScanCanonical(s);
    QualifyCanonical(ps, path);
    RenderScan(QualifyPieces(ps, path));
  }

  /** A string whose every reference is already qualified passes through unchanged. */
  lemma QualifiedUnchanged(s: string, path: seq<string>)
    requires forall k :: 0 <= k < |Scan(s)| && Scan(s)[k].Ref? ==> HasRootPrefix(Scan(s)[k].name)
    ensures Qualify(s, path) == s
  {
    var ps := Scan(s);
    assert QualifyPieces(ps, path) == ps;
    ScanRender(s);
  }

  /** Qualifying twice with the same path is qualifying once: no double `colors.` prefix. */
  lemma QualifyIdempotent(s: string, path: seq<string>)
    ensures Qualify(Qualify(s, path), path) == Qualify(s, path)
  {
    var ps := Scan(s);
    ScanCanonical(s);
    QualifyCanonical(ps, path);
    RenderScan(QualifyPieces(ps, path));
    QualifyPiecesIdempotent(ps, path);
  }

  lemma TransformReferenceIdempotent(v: Value, path: seq<string>)
    ensures TransformReference(TransformReference(v, path), path) == TransformReference(v, path)
  {
    if v.Str? {
      QualifyIdempotent(v.s, path);
    }
  }
}
