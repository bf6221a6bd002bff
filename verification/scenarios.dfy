/**
 * Worked examples of the parser on small documents: a shorthand reference inside
 * `colors`, the same reference elsewhere, a metadata sibling of a group, and what the
 * brace pattern does with empty, unclosed and doubled braces.
 *
 * Each example is proved from lemmas over arbitrary keys and values; the facts about the
 * particular string literals (first characters, concatenations) sit in small lemmas of
 * their own, which keeps the verifier from unfolding the scan on literals at large.
 */
module Scenarios {
  import opened Json
  import opened References
  import opened Tokens

  /** `{primary.700}` owned by `colors.semantic.brand` becomes `{colors.primary.700}`. */
  lemma ShorthandInColors()
    ensures Qualify("{primary.700}", ["colors", "semantic", "brand"]) == "{colors.primary.700}"
  {
    NoRootPrefix("primary.700");
    assert '}' !in "primary.700";
    ShorthandReference("primary.700", ["colors", "semantic", "brand"]);
    PrimaryText();
  }

  // A fact about the literals above, stated apart to keep the verifier's context small.
  lemma PrimaryText()
    ensures "{" + "primary.700" + "}" == "{primary.700}"
    ensures "{colors." + "primary.700" + "}" == "{colors.primary.700}"
  {
  }

  /** An already qualified reference is left alone. */
  lemma QualifiedInColors()
    ensures Qualify("{colors.primary.700}", ["colors", "primary"]) == "{colors.primary.700}"
  {
    QualifiedText();
    QualifiedReference("colors.primary.700", ["colors", "primary"]);
  }

  // A fact about the literals above, stated apart to keep the verifier's context small.
  lemma QualifiedText()
    ensures "colors." <= "colors.primary.700"
    ensures forall k :: 0 <= k < |"colors.primary.700"| ==> "colors.primary.700"[k] != '}'
    ensures "{" + "colors.primary.700" + "}" == "{colors.primary.700}"
  {
  }

  /** Inside `colors`, a string that is one shorthand match `{name}` becomes `{colors.name}`. */
  lemma ShorthandReference(name: string, path: seq<string>)
    requires name != [] && forall k :: 0 <= k < |name| ==> name[k] != '}'
    requires !HasRootPrefix(name) && InColors(path)
    ensures Qualify("{" + name + "}", path) == "{colors." + name + "}"
  {
    SingleReference(name, path);
    PrefixedName(name, path);
    Braced(name, QualifiedName(name, path));
  }

  // The callback's answer for a shorthand capture inside `colors`, stated apart to keep the verifier's context small.
  lemma PrefixedName(name: string, path: seq<string>)
    requires !HasRootPrefix(name) && InColors(path)
    ensures QualifiedName(name, path) == "colors." + name
  {
  }

  // Bracing the qualified capture, stated apart to keep the verifier's context small.
  lemma Braced(name: string, q: string)
    requires q == "colors." + name
    ensures "{" + q + "}" == "{colors." + name + "}"
  {
  }

  /** A string that is one already qualified match `{name}` is left as it is. */
  lemma QualifiedReference(name: string, path: seq<string>)
    requires name != [] && forall k :: 0 <= k < |name| ==> name[k] != '}'
    requires HasRootPrefix(name)
    ensures Qualify("{" + name + "}", path) == "{" + name + "}"
  {
    SingleReference(name, path);
  }

  lemma SingleReference(name: string, path: seq<string>)
    requires name != [] && forall k :: 0 <= k < |name| ==> name[k] != '}'
    ensures Qualify("{" + name + "}", path) == "{" + QualifiedName(name, path) + "}"
  {
    RefScan(name, "");
    assert "{" + name + "}" + "" == "{" + name + "}";
    assert QualifyPieces([Ref(name)], path) == [Ref(QualifiedName(name, path))];
    RenderCons(Ref(QualifiedName(name, path)), []);
  }

  /** A capture starting with none of the roots' initials has no root prefix. */
  lemma NoRootPrefix(name: string)
    requires name != [] && name[0] !in "ctsb"
    ensures !HasRootPrefix(name)
  {
    assert forall p: string :: p != [] && p <= name ==> p[0] == name[0];
  }

  /** A brace pair with nothing inside is no match, and an unclosed '{' is text. */
  lemma EmptyAndUnclosedBraces()
    ensures Scan("{}") == [Text('{'), Text('}')]
    ensures Scan("{a") == [Text('{'), Text('a')]
  {
    assert "{}"[1..] == "}";
    assert "{a"[1..] == "a";
    assert "a"[1..] == "";
    assert CloseIndex("a") == 1;
  }

  /** The capture runs from the first '{' to the first '}', so `{{a}` captures `{a`. */
  lemma DoubledOpeningBrace()
    ensures Qualify("{{a}", ["colors"]) == "{colors.{a}"
  {
    NoRootPrefix("{a");
    assert '}' !in "{a";
    ShorthandReference("{a", ["colors"]);
    DoubledText();
  }

  // A fact about the literals above, stated apart to keep the verifier's context small.
  lemma DoubledText()
    ensures "{" + "{a" + "}" == "{{a}"
    ensures "{colors." + "{a" + "}" == "{colors.{a}"
  {
  }

  /** A token under `colors` has its shorthand reference qualified. */
  lemma NestedColorsToken()
    ensures
      var brand := Obj([("$value", Str("{primary.700}")), ("$type", Str("color"))]);
      var doc := Obj([("colors", Obj([("semantic", Obj([("brand", brand)]))]))]);
      Normalize(doc, []) ==
        [("colors", Group([("semantic", Group([
          ("brand", Leaf(Str("{colors.primary.700}"), Some(Str("color")), None))]))]))]
  {
    ColorsKeys();
    TwoGroupsThenToken("colors", "semantic", "brand", Str("{primary.700}"), Str("color"));
    ShorthandInColors();
  }

  // A fact about the literals above, stated apart to keep the verifier's context small.
  lemma ColorsKeys()
    ensures "colors"[0] != '$' && "semantic"[0] != '$' && "brand"[0] != '$'
    ensures ["colors"] + ["semantic"] + ["brand"] == ["colors", "semantic", "brand"]
  {
  }

  /** The same shorthand under `typography` is left as it is. */
  lemma TypographyToken()
    ensures
      var heading := Obj([("$value", Str("{fontSizes.lg}")), ("$type", Str("typography"))]);
      var doc := Obj([("typography", Obj([("heading", heading)]))]);
      Normalize(doc, []) ==
        [("typography", Group([("heading", Leaf(Str("{fontSizes.lg}"), Some(Str("typography")), None))]))]
  {
    TypographyKeys();
    GroupThenToken("typography", "heading", Str("{fontSizes.lg}"), Str("typography"));
  }

  // A fact about the literals above, stated apart to keep the verifier's context small.
  lemma TypographyKeys()
    ensures "typography"[0] != '$' && "heading"[0] != '$'
    ensures !InColors(["typography", "heading"])
    ensures [] + ["typography"] + ["heading"] == ["typography", "heading"]
  {
  }

  /** A `$description` beside a group's children is not a child. */
  lemma MetadataSibling()
    ensures
      var token := Obj([("$value", Str("#ff0000")), ("$type", Str("color"))]);
      var colors := Obj([("$description", Str("root")), ("primary", Obj([("700", token)]))]);
      Normalize(Obj([("colors", colors)]), []) ==
        [("colors", Group([("primary", Group([("700", Leaf(Str("#ff0000"), Some(Str("color")), None))]))]))]
  {
    var token := Obj([("$value", Str("#ff0000")), ("$type", Str("color"))]);
    var primary := Obj([("700", token)]);
    var colors := Obj([("$description", Str("root")), ("primary", primary)]);
    SiblingKeys();
    TokenFields(Str("#ff0000"), Str("color"));
    KeyNotToken("primary", token);
    SingleToken(primary, "700", token, ["colors", "primary"]);
    MetadataFirst("$description", Str("root"), "primary", primary, ["colors"]);
    KeyNotToken("$description", Str("root"));
    SingleGroup(Obj([("colors", colors)]), "colors", colors, []);
    NoBracesUnchanged("#ff0000", ["colors", "primary", "700"]);
  }

  // A fact about the literals above, stated apart to keep the verifier's context small.
  lemma SiblingKeys()
    ensures "colors"[0] != '$' && "primary"[0] != '$' && "700"[0] != '$' && "$description"[0] == '$'
    ensures ["colors"] + ["primary"] == ["colors", "primary"]
    ensures [] + ["colors"] == ["colors"]
    ensures ["colors", "primary"] + ["700"] == ["colors", "primary", "700"]
    ensures '}' !in "#ff0000"
  {
  }

  /** A string without '}' holds no match: qualification keeps it, inside `colors` or not. */
  lemma NoBracesUnchanged(s: string, path: seq<string>)
    requires '}' !in s
    ensures Qualify(s, path) == s
  {
    ScanRender(s);
    NoCloseNoRefs(Scan(s), path);
  }

  // ----- Small documents of a fixed shape -----

  /** The members of a token `{"$value": value, "$type": ty}`. */
  lemma TokenFields(value: Value, ty: Value)
    ensures var t := Obj([("$value", value), ("$type", ty)]);
      && IsObject(t) && IsToken(t)
      && Member(t, "$value") == Some(value)
      && Member(t, "$type") == Some(ty)
      && Member(t, "$description") == None
  {
    var members := [("$value", value), ("$type", ty)];
    assert "$value"[1] != "$type"[1];
    assert "$value"[1] != "$description"[1];
    assert "$type"[1] != "$description"[1];
    assert members[1..] == [("$type", ty)];
    assert Lookup(members, "$value") == Some(value);
    assert Lookup(members, "$type") == Lookup(members[1..], "$type") == Some(ty);
    assert members[1..][1..] == [];
    assert Lookup(members, "$description") == Lookup(members[1..], "$description") == None;
  }

  /** An object whose only key is not `$value` is a group, not a token. */
  lemma KeyNotToken(key: string, child: Value)
    requires (key != [] && key[0] != '$') || key == "$description"
    ensures !IsToken(Obj([(key, child)]))
  {
    assert "$description"[1] != "$value"[1];
  }

  /** `{a: {b: {"$value": value, "$type": ty}}}` at the root. */
  lemma GroupThenToken(a: string, b: string, value: Value, ty: Value)
    requires a != [] && a[0] != '$' && b != [] && b[0] != '$'
    ensures var token := Obj([("$value", value), ("$type", ty)]);
      Normalize(Obj([(a, Obj([(b, token)]))]), []) ==
        [(a, Group([(b, Leaf(TransformReference(value, [a, b]), Some(ty), None))]))]
  {
    var token := Obj([("$value", value), ("$type", ty)]);
    var group := Obj([(b, token)]);
    TokenFields(value, ty);
    KeyNotToken(b, token);
    SingleGroup(Obj([(a, group)]), a, group, []);
    SingleToken(group, b, token, [a]);
    assert [] + [a] == [a] && [a] + [b] == [a, b];
  }

  /** `{a: {b: {c: {"$value": value, "$type": ty}}}}` at the root. */
  lemma TwoGroupsThenToken(a: string, b: string, c: string, value: Value, ty: Value)
    requires a != [] && a[0] != '$' && b != [] && b[0] != '$' && c != [] && c[0] != '$'
    ensures var token := Obj([("$value", value), ("$type", ty)]);
      Normalize(Obj([(a, Obj([(b, Obj([(c, token)]))]))]), []) ==
        [(a, Group([(b, Group([(c, Leaf(TransformReference(value, [a, b, c]), Some(ty), None))]))]))]
  {
    var token := Obj([("$value", value), ("$type", ty)]);
    var inner := Obj([(c, token)]);
    var outer := Obj([(b, inner)]);
    TokenFields(value, ty);
    KeyNotToken(c, token);
    KeyNotToken(b, inner);
    SingleGroup(Obj([(a, outer)]), a, outer, []);
    SingleGroup(outer, b, inner, [a]);
    SingleToken(inner, c, token, [a, b]);
    assert [] + [a] == [a] && [a] + [b] == [a, b] && [a, b] + [c] == [a, b, c];
  }

  /** A group whose first key is metadata and whose second is a kept group. */
  lemma MetadataFirst(meta: string, m: Value, key: string, child: Value, path: seq<string>)
    requires "$" <= meta && key != [] && key[0] != '$' && IsObject(child)
    ensures Normalize(Obj([(meta, m), (key, child)]), path) == [(key, NormalizeChild(child, path + [key]))]
  {
    var doc := Obj([(meta, m), (key, child)]);
    assert Entries(doc) == [(meta, m), (key, child)];
    assert !IsMetadataKey(key);
    assert NormalizePrefix(doc, path, 0) == [];
    assert NormalizePrefix(doc, path, 1) == [];
  }

  /** A document with one kept group entry. */
  lemma SingleGroup(doc: Value, key: string, child: Value, path: seq<string>)
    requires doc == Obj([(key, child)]) && key != [] && key[0] != '$' && IsObject(child) && !IsToken(child)
    ensures Normalize(doc, path) == [(key, Group(Normalize(child, path + [key])))]
  {
    SingleEntry(doc, key, child, path);
  }

  /** A document with one kept token entry. */
  lemma SingleToken(doc: Value, key: string, child: Value, path: seq<string>)
    requires doc == Obj([(key, child)]) && key != [] && key[0] != '$' && IsObject(child) && IsToken(child)
    ensures Normalize(doc, path) ==
      [(key, Leaf(TransformReference(Member(child, "$value").value, path + [key]),
                  Member(child, "$type"), Member(child, "$description")))]
  {
    SingleEntry(doc, key, child, path);
  }

  lemma SingleEntry(doc: Value, key: string, child: Value, path: seq<string>)
    requires doc == Obj([(key, child)]) && key != [] && key[0] != '$' && IsObject(child)
    ensures Normalize(doc, path) == [(key, NormalizeChild(child, path + [key]))]
  {
    assert Entries(doc) == [(key, child)];
    assert !IsMetadataKey(key);
    assert NormalizePrefix(doc, path, 0) == [];
  }
}
