/** Column names for the leaves of nested JSON values, and why no two leaves share one. */
module ColumnPaths {
  import opened Wrappers

  datatype Field = Field(key: string, value: Json)

  /** `Number` keeps the literal; objects keep their fields in document order. */
  datatype Json =
    | Null
    | Bool(b: bool)
    | Number(literal: string)
    | Text(text: string)
    | Array(items: seq<Json>)
    | Object(fields: seq<Field>)

  datatype Segment = Key(key: string) | Index(index: nat)

  type Path = seq<Segment>

  /** The character classes behind the identifier test, fixed by the Unicode tables. */
  datatype Alphabet = Alphabet(starts: char -> bool, continues: char -> bool) {
    predicate IsIdentifier(s: string) {
      s != "" && starts(s[0]) && forall i :: 0 <= i < |s| ==> continues(s[i])
    }

    /** All that is needed of the tables: punctuation ends an identifier, letters do not. */
    ghost predicate IsSensible() {
      && !continues('.') && !continues('[')
      && IsIdentifier("value")
    }
  }

  // ---------------------------------------------------------------- printing numbers and strings

  function Digit(d: nat): char
    requires d < 16
  {
    "0123456789abcdef"[d]
  }

  function Decimal(n: nat): string {
    if n < 10 then [Digit(n)] else Decimal(n / 10) + [Digit(n % 10)]
  }

  predicate IsDigit(c: char) {
    '0' <= c <= '9'
  }

  /** JSON string escapes, RFC 8259 section 7; other characters stand for themselves. */
  function Escape(c: char): string {
    var n := c as int;
    if c == '\"' then "\\\""
    else if c == '\\' then "\\\\"
    else if c == '\n' then "\\n"
    else if c == '\r' then "\\r"
    else if c == '\t' then "\\t"
    else if n == 8 then "\\b"
    else if n == 12 then "\\f"
    else if n < 32 then "\\u00" + [Digit(n / 16), Digit(n % 16)]
    else [c]
  }

  function EscapeAll(s: string): string {
    if s == "" then "" else Escape(s[0]) + EscapeAll(s[1..])
  }

  function Quote(s: string): string {
    "\"" + EscapeAll(s) + "\""
  }

  // ---------------------------------------------------------------- the code

  function KeyPath(a: Alphabet, parent: string, key: string): string {
    if a.IsIdentifier(key) then (if parent != "" then parent + "." + key else key)
    else parent + "[" + Quote(key) + "]"
  }

  function IndexPath(parent: string, index: nat): string {
    (if parent != "" then parent else "value") + "[" + Decimal(index) + "]"
  }

  /** Nonempty objects and nonempty arrays of objects are expanded; all else is a leaf. */
  predicate IsExpanded(v: Json) {
    || (v.Object? && v.fields != [])
    || (v.Array? && v.items != [] && forall i :: 0 <= i < |v.items| ==> v.items[i].Object?)
  }

  /** What the cell of a leaf holds; containers are written as JSON text. */
  function Cell(v: Json, jsonText: Json -> string): Json {
    if v.Array? || v.Object? then Text(jsonText(v)) else v
  }

  function Flatten(a: Alphabet, v: Json, parent: string, jsonText: Json -> string): map<string, Json>
    decreases v
  {
    if !IsExpanded(v) then map[(if parent != "" then parent else "value") := Cell(v, jsonText)]
    else if v.Object? then FlattenFields(a, v.fields, parent, jsonText)
    else FlattenItems(a, v.items, parent, jsonText)
  }

  /** Later entries overwrite earlier ones of the same name. */
  function FlattenFields(a: Alphabet, fields: seq<Field>, parent: string, jsonText: Json -> string): map<string, Json>
    decreases fields
  {
    if fields == [] then map[]
    else
      var last := fields[|fields| - 1];
      FlattenFields(a, fields[..|fields| - 1], parent, jsonText)
      + Flatten(a, last.value, KeyPath(a, parent, last.key), jsonText)
  }

  function FlattenItems(a: Alphabet, items: seq<Json>, parent: string, jsonText: Json -> string): map<string, Json>
    decreases items
  {
    if items == [] then map[]
    else
      FlattenItems(a, items[..|items| - 1], parent, jsonText)
      + Flatten(a, items[|items| - 1], IndexPath(parent, |items| - 1), jsonText)
  }

  // ---------------------------------------------------------------- leaves and their names

  /** Following `path` from `v` ends at the leaf `x`. */
  ghost predicate Leads(v: Json, path: Path, x: Json)
    decreases v
  {
    if !IsExpanded(v) then path == [] && x == v
    else if path == [] then false
    else if v.Object? then
      exists i :: 0 <= i < |v.fields| && path[0] == Key(v.fields[i].key) && Leads(v.fields[i].value, path[1..], x)
    else
      exists i :: 0 <= i < |v.items| && path[0] == Index(i) && Leads(v.items[i], path[1..], x)
  }

  /** A segment after the first. */
  function Suffix(a: Alphabet, s: Segment): string {
    match s
    case Key(key) => if a.IsIdentifier(key) then "." + key else "[" + Quote(key) + "]"
    case Index(index) => "[" + Decimal(index) + "]"
  }

  function Suffixes(a: Alphabet, path: Path): string {
    if path == [] then "" else Suffix(a, path[0]) + Suffixes(a, path[1..])
  }

  /** The name that a path gets below the column name `parent`, which is empty at the root. */
  function Name(a: Alphabet, parent: string, path: Path): string {
    if parent != "" then parent + Suffixes(a, path)
    else if path == [] then "value"
    else if path[0].Index? then "value" + Suffixes(a, path)
    else if a.IsIdentifier(path[0].key) then path[0].key + Suffixes(a, path[1..])
    else Suffixes(a, path)
  }

  // ---------------------------------------------------------------- unique decoding

  lemma AppendIsAssociative(x: string, y: string, z: string)
    ensures x + y + z == x + (y + z)
  {
  }

  lemma CancelFront(p: string, x: string, y: string)
    requires p + x == p + y
    ensures x == y
  {
    assert (p + x)[|p|..] == x && (p + y)[|p|..] == y;
  }

  /** Text over `good` is cut off where the rest starts with something else. */
  lemma {:induction false} SpansAreEqual(good: char -> bool, s: string, t: string, x: string, y: string)
    requires (forall i :: 0 <= i < |s| ==> good(s[i])) && (forall i :: 0 <= i < |t| ==> good(t[i]))
    requires (x == "" || !good(x[0])) && (y == "" || !good(y[0]))
    requires s + x == t + y
    ensures s == t && x == y
  {
    if s == "" || t == "" {
      assert s == "" ==> s + x == x;
      assert t == "" ==> t + y == y;
    } else {
      assert (s + x)[0] == s[0] && (t + y)[0] == t[0];
      assert (s + x)[1..] == s[1..] + x && (t + y)[1..] == t[1..] + y;
      SpansAreEqual(good, s[1..], t[1..], x, y);
      assert s == [s[0]] + s[1..] && t == [t[0]] + t[1..];
    }
  }

  lemma {:induction false} DecimalIsDigits(n: nat)
    ensures Decimal(n) != "" && forall i :: 0 <= i < |Decimal(n)| ==> IsDigit(Decimal(n)[i])
  {
    if n >= 10 {
      DecimalIsDigits(n / 10);
    }
  }

  lemma DigitsAreDistinct(d: nat, e: nat)
    requires d < 16 && e < 16 && Digit(d) == Digit(e)
    ensures d == e
  {
  }

  lemma DecimalEndsInUnits(n: nat)
    ensures var s := Decimal(n);
            s != "" && s[|s| - 1] == Digit(n % 10) && s[..|s| - 1] == if n < 10 then "" else Decimal(n / 10)
  {
    DecimalIsDigits(n);
  }

  lemma {:induction false} DecimalIsInjective(m: nat, n: nat)
    requires Decimal(m) == Decimal(n)
    ensures m == n
  {
    DecimalEndsInUnits(m);
    DecimalEndsInUnits(n);
    DigitsAreDistinct(m % 10, n % 10);
    DecimalIsDigits(m / 10);
    DecimalIsDigits(n / 10);
    if m >= 10 && n >= 10 {
      DecimalIsInjective(m / 10, n / 10);
    }
  }

  lemma EscapeLengths(c: char)
    ensures var e := Escape(c);
            && |e| == (if e[0] != '\\' then 1 else if e[1] == 'u' then 6 else 2)
            && e[0] != '\"'
  {
  }

  lemma EscapeIsInjective(c: char, d: char)
    requires Escape(c) == Escape(d)
    ensures c == d
  {
    var e, f := Escape(c), Escape(d);
    if |e| == 6 {
      assert e[4] == f[4] && e[5] == f[5];
      DigitsAreDistinct(c as int / 16, d as int / 16);
      DigitsAreDistinct(c as int % 16, d as int % 16);
    } else {
      assert e[0] == f[0] && e[|e| - 1] == f[|f| - 1];
    }
  }

  /** No escape is the beginning of another. */
  lemma EscapeIsPrefixFree(c: char, d: char, x: string, y: string)
    requires Escape(c) + x == Escape(d) + y
    ensures c == d && x == y
  {
    var e, f, s := Escape(c), Escape(d), Escape(c) + x;
    EscapeLengths(c);
    EscapeLengths(d);
    assert s[0] == e[0] == f[0];
    assert |e| > 1 ==> s[1] == e[1] == f[1];
    assert s[..|e|] == e && s[..|f|] == f;
    EscapeIsInjective(c, d);
    CancelFront(e, x, y);
  }

  lemma EscapedTextUnfolds(s: string, x: string)
    requires s != ""
    ensures EscapeAll(s) + "\"" + x == Escape(s[0]) + (EscapeAll(s[1..]) + "\"" + x)
    ensures (EscapeAll(s) + "\"" + x)[0] != '\"'
  {
    var e, rest := Escape(s[0]), EscapeAll(s[1..]);
    assert e + rest + "\"" + x == e + (rest + "\"" + x);
    EscapeLengths(s[0]);
  }

  lemma {:induction false} QuotedIsPrefixFree(s: string, t: string, x: string, y: string)
    requires EscapeAll(s) + "\"" + x == EscapeAll(t) + "\"" + y
    ensures s == t && x == y
  {
    if s == "" && t == "" {
      var u, v := EscapeAll(s) + "\"" + x, EscapeAll(t) + "\"" + y;
      assert u[1..] == x && v[1..] == y;
    } else if s == "" {
      EscapedTextUnfolds(t, y);
    } else if t == "" {
      EscapedTextUnfolds(s, x);
    } else {
      EscapedTextUnfolds(s, x);
      EscapedTextUnfolds(t, y);
      EscapeIsPrefixFree(s[0], t[0], EscapeAll(s[1..]) + "\"" + x, EscapeAll(t[1..]) + "\"" + y);
      QuotedIsPrefixFree(s[1..], t[1..], x, y);
    }
  }

  /** What follows a segment is empty or begins with a separator. */
  ghost predicate IsTail(x: string) {
    x == "" || x[0] == '.' || x[0] == '['
  }

  lemma SuffixesAreTails(a: Alphabet, path: Path)
    ensures IsTail(Suffixes(a, path))
  {
  }

  /** The kind of a segment shows in its first two characters. */
  lemma SuffixKinds(a: Alphabet, s: Segment, x: string)
    ensures var t := Suffix(a, s) + x;
            && |Suffix(a, s)| >= 2
            && (t[0] == '.' <==> s.Key? && a.IsIdentifier(s.key))
            && (t[0] == '[')  == !(s.Key? && a.IsIdentifier(s.key))
            && (t[0] == '[' ==> (t[1] == '\"' <==> s.Key?))
  {
    if s.Index? {
      DecimalIsDigits(s.index);
      assert (Suffix(a, s) + x)[1] == Decimal(s.index)[0];
    }
  }

  lemma IdentifierIsDecodable(a: Alphabet, s: string, t: string, x: string, y: string)
    requires a.IsSensible() && IsTail(x) && IsTail(y) && a.IsIdentifier(s) && a.IsIdentifier(t)
    requires "." + s + x == "." + t + y
    ensures s == t && x == y
  {
    assert ("." + s + x)[1..] == s + x && ("." + t + y)[1..] == t + y;
    SpansAreEqual(a.continues, s, t, x, y);
  }

  lemma QuotedForm(s: string, x: string)
    ensures "[" + Quote(s) + "]" + x == "[\"" + (EscapeAll(s) + "\"" + ("]" + x))
  {
  }

  lemma QuotedKeyIsDecodable(s: string, t: string, x: string, y: string)
    requires "[" + Quote(s) + "]" + x == "[" + Quote(t) + "]" + y
    ensures s == t && x == y
  {
    QuotedForm(s, x);
    QuotedForm(t, y);
    CancelFront("[\"", EscapeAll(s) + "\"" + ("]" + x), EscapeAll(t) + "\"" + ("]" + y));
    QuotedIsPrefixFree(s, t, "]" + x, "]" + y);
    CancelFront("]", x, y);
  }

  lemma IndexForm(d: string, x: string)
    ensures "[" + d + "]" + x == "[" + (d + ("]" + x))
  {
  }

  lemma IndexIsDecodable(m: nat, n: nat, x: string, y: string)
    requires "[" + Decimal(m) + "]" + x == "[" + Decimal(n) + "]" + y
    ensures m == n && x == y
  {
    DecimalIsDigits(m);
    DecimalIsDigits(n);
    IndexForm(Decimal(m), x);
    IndexForm(Decimal(n), y);
    CancelFront("[", Decimal(m) + ("]" + x), Decimal(n) + ("]" + y));
    SpansAreEqual(IsDigit, Decimal(m), Decimal(n), "]" + x, "]" + y);
    CancelFront("]", x, y);
    DecimalIsInjective(m, n);
  }

  lemma SuffixIsDecodable(a: Alphabet, s: Segment, t: Segment, x: string, y: string)
    requires a.IsSensible() && IsTail(x) && IsTail(y)
    requires Suffix(a, s) + x == Suffix(a, t) + y
    ensures s == t && x == y
  {
    SuffixKinds(a, s, x);
    SuffixKinds(a, t, y);
    if s.Index? {
      IndexIsDecodable(s.index, t.index, x, y);
    } else if a.IsIdentifier(s.key) {
      IdentifierIsDecodable(a, s.key, t.key, x, y);
    } else {
      QuotedKeyIsDecodable(s.key, t.key, x, y);
    }
  }

  lemma {:induction false} SuffixesAreDecodable(a: Alphabet, p: Path, q: Path)
    requires a.IsSensible() && Suffixes(a, p) == Suffixes(a, q)
    ensures p == q
  {
    if p == [] || q == [] {
      if p != [] {
        SuffixKinds(a, p[0], Suffixes(a, p[1..]));
      }
      if q != [] {
        SuffixKinds(a, q[0], Suffixes(a, q[1..]));
      }
    } else {
      SuffixesAreTails(a, p[1..]);
      SuffixesAreTails(a, q[1..]);
      SuffixIsDecodable(a, p[0], q[0], Suffixes(a, p[1..]), Suffixes(a, q[1..]));
      SuffixesAreDecodable(a, p[1..], q[1..]);
      assert p == [p[0]] + p[1..] && q == [q[0]] + q[1..];
    }
  }

  /** The root of anything but an object goes by the name of a field called "value". */
  function Canonical(p: Path): Path {
    if p == [] || p[0].Index? then [Key("value")] + p else p
  }

  function FirstKey(a: Alphabet, p: Path): string
    requires p != [] && p[0].Key?
  {
    if a.IsIdentifier(p[0].key) then p[0].key else ""
  }

  lemma NameOfCanonical(a: Alphabet, p: Path)
    requires a.IsSensible()
    ensures var c := Canonical(p);
            Name(a, "", p) == FirstKey(a, c) + Suffixes(a, if a.IsIdentifier(c[0].key) then c[1..] else c)
  {
    var c := Canonical(p);
    if p == [] || p[0].Index? {
      assert c[1..] == p && c[0] == Key("value");
      assert FirstKey(a, c) + Suffixes(a, p) == Name(a, "", p);
    }
  }

  /** Exactly when two paths get the same name: never for paths that start alike. */
  lemma NamesClashExactly(a: Alphabet, p: Path, q: Path)
    requires a.IsSensible()
    ensures Name(a, "", p) == Name(a, "", q) <==> Canonical(p) == Canonical(q)
  {
    NameOfCanonical(a, p);
    NameOfCanonical(a, q);
    if Name(a, "", p) == Name(a, "", q) {
      var c, d := Canonical(p), Canonical(q);
      var c', d' := if a.IsIdentifier(c[0].key) then c[1..] else c, if a.IsIdentifier(d[0].key) then d[1..] else d;
      SuffixesAreTails(a, c');
      SuffixesAreTails(a, d');
      SpansAreEqual(a.continues, FirstKey(a, c), FirstKey(a, d), Suffixes(a, c'), Suffixes(a, d'));
      SuffixesAreDecodable(a, c', d');
      assert c == [c[0]] + c[1..] && d == [d[0]] + d[1..];
    }
  }

  /** An object with a field "value" and a bare list do share names; they are different records. */
  lemma ListAndValueFieldClash(a: Alphabet)
    requires a.IsSensible()
    ensures Name(a, "", [Index(0)]) == Name(a, "", [Key("value"), Index(0)])
  {
    NamesClashExactly(a, [Index(0)], [Key("value"), Index(0)]);
    assert Canonical([Index(0)]) == [Key("value"), Index(0)];
  }

  // ---------------------------------------------------------------- flattening loses nothing

  lemma KeyPathIsSuffix(a: Alphabet, parent: string, key: string)
    ensures KeyPath(a, parent, key) != ""
    ensures KeyPath(a, parent, key)
         == if parent == "" && a.IsIdentifier(key) then key else parent + Suffix(a, Key(key))
  {
    if !a.IsIdentifier(key) {
      var q := Quote(key);
      assert parent + "[" + q + "]" == parent + ("[" + q + "]");
    }
  }

  lemma NameBelowKey(a: Alphabet, parent: string, key: string, path: Path)
    ensures Name(a, KeyPath(a, parent, key), path) == Name(a, parent, [Key(key)] + path)
  {
    var full, start := [Key(key)] + path, Suffix(a, Key(key));
    KeyPathIsSuffix(a, parent, key);
    assert full[1..] == path && full[0] == Key(key);
    assert Suffixes(a, full) == start + Suffixes(a, path);
    AppendIsAssociative(parent, start, Suffixes(a, path));
    assert parent == "" ==> parent + start == start;
  }

  lemma IndexPathIsSuffix(a: Alphabet, parent: string, index: nat)
    ensures IndexPath(parent, index) != ""
    ensures IndexPath(parent, index) == (if parent != "" then parent else "value") + Suffix(a, Index(index))
  {
    var d, start := Decimal(index), if parent != "" then parent else "value";
    assert start + "[" + d + "]" == start + ("[" + d + "]");
  }

  lemma NameBelowIndex(a: Alphabet, parent: string, index: nat, path: Path)
    ensures Name(a, IndexPath(parent, index), path) == Name(a, parent, [Index(index)] + path)
  {
    var full, start := [Index(index)] + path, if parent != "" then parent else "value";
    IndexPathIsSuffix(a, parent, index);
    assert full[1..] == path && full[0] == Index(index);
    assert Name(a, parent, full) == start + Suffixes(a, full);
    AppendIsAssociative(start, Suffix(a, Index(index)), Suffixes(a, path));
  }

  /** Every entry of the result is a leaf under its own name. */
  ghost predicate IsFrom(a: Alphabet, v: Json, parent: string, name: string, cell: Json, jsonText: Json -> string) {
    exists path, x :: Leads(v, path, x) && name == Name(a, parent, path) && cell == Cell(x, jsonText)
  }

  lemma {:induction false} FlattenIsSound(a: Alphabet, v: Json, parent: string, jsonText: Json -> string, name: string)
    requires name in Flatten(a, v, parent, jsonText)
    ensures IsFrom(a, v, parent, name, Flatten(a, v, parent, jsonText)[name], jsonText)
    decreases v
  {
    var cell := Flatten(a, v, parent, jsonText)[name];
    if !IsExpanded(v) {
      assert Leads(v, [], v) && Name(a, parent, []) == if parent != "" then parent + "" else "value";
    } else if v.Object? {
      var i := FieldsAreSound(a, v.fields, parent, jsonText, name);
      FlattenIsSound(a, v.fields[i].value, KeyPath(a, parent, v.fields[i].key), jsonText, name);
      FromField(a, v, i, parent, name, cell, jsonText);
    } else {
      var i := ItemsAreSound(a, v.items, parent, jsonText, name);
      FlattenIsSound(a, v.items[i], IndexPath(parent, i), jsonText, name);
      FromItem(a, v, i, parent, name, cell, jsonText);
    }
  }

  lemma FromField(a: Alphabet, v: Json, i: nat, parent: string, name: string, cell: Json, jsonText: Json -> string)
    requires v.Object? && i < |v.fields|
    requires IsFrom(a, v.fields[i].value, KeyPath(a, parent, v.fields[i].key), name, cell, jsonText)
    ensures IsFrom(a, v, parent, name, cell, jsonText)
  {
    var f := v.fields[i];
    var path, x :| Leads(f.value, path, x) && name == Name(a, KeyPath(a, parent, f.key), path) && cell == Cell(x, jsonText);
    var full := [Key(f.key)] + path;
    NameBelowKey(a, parent, f.key, path);
    assert full[1..] == path;
    assert Leads(v, full, x);
  }

  lemma FromItem(a: Alphabet, v: Json, i: nat, parent: string, name: string, cell: Json, jsonText: Json -> string)
    requires v.Array? && IsExpanded(v) && i < |v.items|
    requires IsFrom(a, v.items[i], IndexPath(parent, i), name, cell, jsonText)
    ensures IsFrom(a, v, parent, name, cell, jsonText)
  {
    var path, x :| Leads(v.items[i], path, x) && name == Name(a, IndexPath(parent, i), path) && cell == Cell(x, jsonText);
    var full := [Index(i)] + path;
    NameBelowIndex(a, parent, i, path);
    assert full[1..] == path;
    assert Leads(v, full, x);
  }

  /** The part of the result that field `i` contributes. */
  function FieldPart(a: Alphabet, f: Field, parent: string, jsonText: Json -> string): map<string, Json> {
    Flatten(a, f.value, KeyPath(a, parent, f.key), jsonText)
  }

  function ItemPart(a: Alphabet, item: Json, i: nat, parent: string, jsonText: Json -> string): map<string, Json> {
    Flatten(a, item, IndexPath(parent, i), jsonText)
  }

  lemma {:induction false} FieldsAreSound(a: Alphabet, fields: seq<Field>, parent: string, jsonText: Json -> string, name: string)
    returns (i: nat)
    requires name in FlattenFields(a, fields, parent, jsonText)
    ensures i < |fields| && name in FieldPart(a, fields[i], parent, jsonText)
    ensures FieldPart(a, fields[i], parent, jsonText)[name] == FlattenFields(a, fields, parent, jsonText)[name]
  {
    i := |fields| - 1;
    var init, part := FlattenFields(a, fields[..i], parent, jsonText), FieldPart(a, fields[i], parent, jsonText);
    assert FlattenFields(a, fields, parent, jsonText) == init + part;
    if name !in part {
      i := FieldsAreSound(a, fields[..i], parent, jsonText, name);
    }
  }

  lemma {:induction false} ItemsAreSound(a: Alphabet, items: seq<Json>, parent: string, jsonText: Json -> string, name: string)
    returns (i: nat)
    requires name in FlattenItems(a, items, parent, jsonText)
    ensures i < |items| && name in ItemPart(a, items[i], i, parent, jsonText)
    ensures ItemPart(a, items[i], i, parent, jsonText)[name] == FlattenItems(a, items, parent, jsonText)[name]
  {
    i := |items| - 1;
    var init, part := FlattenItems(a, items[..i], parent, jsonText), ItemPart(a, items[i], i, parent, jsonText);
    assert FlattenItems(a, items, parent, jsonText) == init + part;
    if name !in part {
      i := ItemsAreSound(a, items[..i], parent, jsonText, name);
    }
  }

  lemma {:induction false} FlattenIsComplete(a: Alphabet, v: Json, parent: string, jsonText: Json -> string, path: Path, x: Json)
    requires Leads(v, path, x)
    ensures Name(a, parent, path) in Flatten(a, v, parent, jsonText)
    decreases v
  {
    if path == [] {
      assert parent != "" ==> parent + Suffixes(a, []) == parent;
    } else if v.Object? {
      var i :| 0 <= i < |v.fields| && path[0] == Key(v.fields[i].key) && Leads(v.fields[i].value, path[1..], x);
      var f := v.fields[i];
      FlattenIsComplete(a, f.value, KeyPath(a, parent, f.key), jsonText, path[1..], x);
      NameBelowKey(a, parent, f.key, path[1..]);
      assert path == [Key(f.key)] + path[1..];
      FieldsAreComplete(a, v.fields, parent, jsonText, i, Name(a, parent, path));
    } else {
      var i :| 0 <= i < |v.items| && path[0] == Index(i) && Leads(v.items[i], path[1..], x);
      FlattenIsComplete(a, v.items[i], IndexPath(parent, i), jsonText, path[1..], x);
      NameBelowIndex(a, parent, i, path[1..]);
      assert path == [Index(i)] + path[1..];
      ItemsAreComplete(a, v.items, parent, jsonText, i, Name(a, parent, path));
    }
  }

  lemma {:induction false} FieldsAreComplete(a: Alphabet, fields: seq<Field>, parent: string, jsonText: Json -> string, i: nat, name: string)
    requires i < |fields| && name in FieldPart(a, fields[i], parent, jsonText)
    ensures name in FlattenFields(a, fields, parent, jsonText)
  {
    if i < |fields| - 1 {
      FieldsAreComplete(a, fields[..|fields| - 1], parent, jsonText, i, name);
    }
  }

  lemma {:induction false} ItemsAreComplete(a: Alphabet, items: seq<Json>, parent: string, jsonText: Json -> string, i: nat, name: string)
    requires i < |items| && name in ItemPart(a, items[i], i, parent, jsonText)
    ensures name in FlattenItems(a, items, parent, jsonText)
  {
    if i < |items| - 1 {
      ItemsAreComplete(a, items[..|items| - 1], parent, jsonText, i, name);
    }
  }

  /** No object names a field twice, at any depth. */
  ghost predicate HasUniqueKeys(v: Json) {
    match v
    case Object(fields) =>
      && AreDistinctKeys(fields)
      && (forall i :: 0 <= i < |fields| ==> HasUniqueKeys(fields[i].value))
    case Array(items) => forall i :: 0 <= i < |items| ==> HasUniqueKeys(items[i])
    case _ => true
  }

  predicate AreDistinctKeys(pairs: seq<Field>) {
    forall i, j :: 0 <= i < j < |pairs| ==> pairs[i].key != pairs[j].key
  }

  /** The parser's pair hook: an object that names a field twice is refused. */
  method UniqueObject(pairs: seq<Field>) returns (r: Option<Json>)
    ensures r == Hooked(pairs)
  {
    var seen: set<string> := {};
    for i := 0 to |pairs|
      invariant seen == set k | 0 <= k < i :: pairs[k].key
      invariant forall k, j :: 0 <= k < j < i ==> pairs[k].key != pairs[j].key
    {
      if pairs[i].key in seen {
        return None;
      }
      seen := seen + {pairs[i].key};
    }
    return Some(Object(pairs));
  }

  function Hooked(pairs: seq<Field>): Option<Json> {
    if AreDistinctKeys(pairs) then Some(Object(pairs)) else None
  }

  /** What the parser makes of a document: the hook runs on every object, innermost first. */
  function Parsed(v: Json): Option<Json>
    decreases v
  {
    match v
    case Object(fields) =>
      var children := ParsedFields(fields);
      if children.Some? then Hooked(children.value) else None
    case Array(items) =>
      var children := ParsedItems(items);
      if children.Some? then Some(Array(children.value)) else None
    case _ => Some(v)
  }

  function ParsedFields(fields: seq<Field>): Option<seq<Field>>
    decreases fields
  {
    if fields == [] then Some([])
    else
      var last := fields[|fields| - 1];
      var before, value := ParsedFields(fields[..|fields| - 1]), Parsed(last.value);
      if before.Some? && value.Some? then Some(before.value + [Field(last.key, value.value)]) else None
  }

  function ParsedItems(items: seq<Json>): Option<seq<Json>>
    decreases items
  {
    if items == [] then Some([])
    else
      var before, value := ParsedItems(items[..|items| - 1]), Parsed(items[|items| - 1]);
      if before.Some? && value.Some? then Some(before.value + [value.value]) else None
  }

  /** The parser accepts a document, unchanged, exactly when none of its objects repeats a key. */
  lemma {:induction false} ParsedExactly(v: Json)
    ensures Parsed(v) == if HasUniqueKeys(v) then Some(v) else None
    decreases v
  {
    match v
    case Object(fields) => ParsedFieldsExactly(fields);
    case Array(items) => ParsedItemsExactly(items);
    case _ =>
  }

  lemma {:induction false} ParsedFieldsExactly(fields: seq<Field>)
    ensures ParsedFields(fields)
         == if forall i :: 0 <= i < |fields| ==> HasUniqueKeys(fields[i].value) then Some(fields) else None
    decreases fields
  {
    if fields != [] {
      var n := |fields| - 1;
      ParsedFieldsExactly(fields[..n]);
      ParsedExactly(fields[n].value);
      assert fields == fields[..n] + [fields[n]];
      assert forall i :: 0 <= i < n ==> fields[..n][i] == fields[i];
    }
  }

  lemma {:induction false} ParsedItemsExactly(items: seq<Json>)
    ensures ParsedItems(items) == if forall i :: 0 <= i < |items| ==> HasUniqueKeys(items[i]) then Some(items) else None
    decreases items
  {
    if items != [] {
      var n := |items| - 1;
      ParsedItemsExactly(items[..n]);
      ParsedExactly(items[n]);
      assert items == items[..n] + [items[n]];
      assert forall i :: 0 <= i < n ==> items[..n][i] == items[i];
    }
  }

  lemma {:induction false} PathDeterminesLeaf(v: Json, path: Path, x: Json, y: Json)
    requires HasUniqueKeys(v) && Leads(v, path, x) && Leads(v, path, y)
    ensures x == y
    decreases v
  {
    if path != [] && v.Object? {
      var i :| 0 <= i < |v.fields| && path[0] == Key(v.fields[i].key) && Leads(v.fields[i].value, path[1..], x);
      PathDeterminesLeaf(v.fields[i].value, path[1..], x, y);
    } else if path != [] {
      PathDeterminesLeaf(v.items[path[0].index], path[1..], x, y);
    }
  }

  /** Distinct leaves of one value have distinct column names. */
  lemma LeavesHaveDistinctNames(a: Alphabet, v: Json, p: Path, x: Json, q: Path, y: Json)
    requires a.IsSensible() && Leads(v, p, x) && Leads(v, q, y) && p != q
    ensures Name(a, "", p) != Name(a, "", q)
  {
    NamesClashExactly(a, p, q);
    assert Canonical(p) == p || Canonical(p)[1..] == p;
    assert Canonical(q) == q || Canonical(q)[1..] == q;
  }

  /** Flattening is the map from the names of the leaves to their cells: nothing is overwritten. */
  lemma FlattenKeepsEveryLeaf(a: Alphabet, v: Json, jsonText: Json -> string, path: Path, x: Json)
    requires a.IsSensible() && HasUniqueKeys(v) && Leads(v, path, x)
    ensures var row := Flatten(a, v, "", jsonText);
            Name(a, "", path) in row && row[Name(a, "", path)] == Cell(x, jsonText)
  {
    var name := Name(a, "", path);
    FlattenIsComplete(a, v, "", jsonText, path, x);
    FlattenIsSound(a, v, "", jsonText, name);
    var q, y :| Leads(v, q, y) && name == Name(a, "", q) && Flatten(a, v, "", jsonText)[name] == Cell(y, jsonText);
    if q != path {
      LeavesHaveDistinctNames(a, v, path, x, q, y);
    }
    PathDeterminesLeaf(v, path, x, y);
  }
}
