/** The configuration identity of a provider quota: the list of tagged parts that is hashed,
    and exactly which configurations share one. */
module QuotaIdentity {
  import opened Sequences
  import Text

  /** A quota configuration. */
  datatype Quota = Quota(
    url: string, itemsPath: string, fields: map<string, string>,
    title: string, lines: seq<string>, valueMaps: map<string, map<string, string>>)

  /** Library functions: sort.Strings on distinct names, and time.Duration's text form. */
  datatype Library = Library(sort: set<string> -> seq<string>, duration: int -> string)

  /** Sorting puts a new name at its place among the others. */
  ghost predicate Sorts(sort: set<string> -> seq<string>) {
    sort({}) == [] && forall names: set<string>, x: string :: SortsNext(sort, names, x)
  }

  ghost predicate SortsNext(sort: set<string> -> seq<string>, names: set<string>, x: string) {
    x !in names ==> Inserted(sort(names), sort(names + {x}), x)
  }

  ghost predicate Inserted(before: seq<string>, after: seq<string>, x: string) {
    exists i :: 0 <= i <= |before| && after == before[..i] + [x] + before[i..]
  }

  /** The parts of a fingerprint, each followed by a NUL. */
  function HashInput(parts: seq<string>): string {
    if parts == [] then "" else parts[0] + ['\U{0}'] + HashInput(parts[1..])
  }

  ghost predicate NulFree(parts: seq<string>) {
    forall x :: x in parts ==> '\U{0}' !in x
  }

  datatype Pair = Pair(name: string, value: string)

  datatype Quad = Quad(name: string, raw: string, value: string)

  /** Looking up a name that is absent gives the zero value. */
  function ValueOf(m: map<string, string>, name: string): string {
    if name in m then m[name] else ""
  }

  function MapOf(maps: map<string, map<string, string>>, name: string): map<string, string> {
    if name in maps then maps[name] else map[]
  }

  function Pairs(names: seq<string>, m: map<string, string>): seq<Pair> {
    seq(|names|, i requires 0 <= i < |names| => Pair(names[i], ValueOf(m, names[i])))
  }

  function FieldParts(pairs: seq<Pair>): seq<string> {
    if pairs == [] then [] else ["field", pairs[0].name, pairs[0].value] + FieldParts(pairs[1..])
  }

  function LineParts(lines: seq<string>): seq<string> {
    if lines == [] then [] else ["display-line", lines[0]] + LineParts(lines[1..])
  }

  function ValueParts(quads: seq<Quad>): seq<string> {
    if quads == [] then []
    else ["value-map", quads[0].name, quads[0].raw, quads[0].value] + ValueParts(quads[1..])
  }

  function QuadsOf(name: string, pairs: seq<Pair>): seq<Quad> {
    seq(|pairs|, i requires 0 <= i < |pairs| => Quad(name, pairs[i].name, pairs[i].value))
  }

  /** The value maps in the order of their names, each in the order of its raw values. */
  function QuadList(lib: Library, names: seq<string>, maps: map<string, map<string, string>>): seq<Quad> {
    if names == [] then []
    else QuadsIn(lib, names[0], MapOf(maps, names[0])) + QuadList(lib, names[1..], maps)
  }

  function QuadsIn(lib: Library, name: string, m: map<string, string>): seq<Quad> {
    QuadsOf(name, Pairs(lib.sort(m.Keys), m))
  }

  function FieldPairs(lib: Library, q: Quota): seq<Pair> {
    Pairs(lib.sort(q.fields.Keys), q.fields)
  }

  function ValueQuads(lib: Library, q: Quota): seq<Quad> {
    QuadList(lib, lib.sort(q.valueMaps.Keys), q.valueMaps)
  }

  function Head(lib: Library, q: Quota, interval: int, apiKey: string): seq<string> {
    [Text.TrimSpace(q.url), lib.duration(interval), Text.TrimSpace(q.itemsPath), apiKey]
  }

  function Parts(lib: Library, q: Quota, interval: int, apiKey: string): seq<string> {
    Head(lib, q, interval, apiKey)
    + (FieldParts(FieldPairs(lib, q))
       + (["display-title", q.title]
          + (LineParts(q.lines) + ValueParts(ValueQuads(lib, q)))))
  }

  /** What of a configuration matters: spaces around its address and items path do not, nor
      does a value map without entries. */
  function Normal(q: Quota): Quota {
    q.(url := Text.TrimSpace(q.url), itemsPath := Text.TrimSpace(q.itemsPath),
       valueMaps := NonEmpty(q.valueMaps))
  }

  function NonEmpty(maps: map<string, map<string, string>>): map<string, map<string, string>> {
    maps - Empties(maps)
  }

  function Empties(maps: map<string, map<string, string>>): set<string> {
    set name | name in maps && maps[name] == map[]
  }

  // ------------------------------------------------------------------ from the hash input

  lemma {:induction false} FirstNul(x: string, more: string, y: string, rest: string)
    requires '\U{0}' !in x && '\U{0}' !in y
    requires x + ['\U{0}'] + more == y + ['\U{0}'] + rest
    ensures x == y && more == rest
    decreases |x|
  {
    var s, t := x + ['\U{0}'] + more, y + ['\U{0}'] + rest;
    assert s[0] == if x == "" then '\U{0}' else x[0];
    assert t[0] == if y == "" then '\U{0}' else y[0];
    assert x == "" <==> y == "";
    if x == "" {
      assert s[1..] == more && t[1..] == rest;
    } else {
      assert s[1..] == x[1..] + ['\U{0}'] + more && t[1..] == y[1..] + ['\U{0}'] + rest;
      FirstNul(x[1..], more, y[1..], rest);
      assert x == [x[0]] + x[1..] && y == [y[0]] + y[1..];
    }
  }

  /** Parts without a NUL are recovered from what is hashed. */
  lemma {:induction false} HashInputInjective(x: seq<string>, y: seq<string>)
    requires NulFree(x) && NulFree(y) && HashInput(x) == HashInput(y)
    ensures x == y
    decreases |x|
  {
    if x != [] && y != [] {
      assert x[0] in x && y[0] in y;
      FirstNul(x[0], HashInput(x[1..]), y[0], HashInput(y[1..]));
      HashInputInjective(x[1..], y[1..]);
      assert x == [x[0]] + x[1..] && y == [y[0]] + y[1..];
    }
  }

  lemma {:induction false} HashInputConcat(x: seq<string>, y: seq<string>)
    ensures HashInput(x + y) == HashInput(x) + HashInput(y)
  {
    if x == [] {
      assert x + y == y;
    } else {
      HashInputConcat(x[1..], y);
      assert (x + y)[1..] == x[1..] + y;
      var part := x[0] + ['\U{0}'];
      assert HashInput(x + y) == part + HashInput(x[1..] + y);
      hide HashInput;
      Assoc(part, HashInput(x[1..]), HashInput(y));
    }
  }

  lemma HashOne(a: string)
    ensures HashInput([a]) == a + ['\U{0}']
  {
    assert [a][1..] == [] && HashInput([]) == "";
  }

  /** A NUL inside a part is hashed like the end of a part. */
  lemma NulMerges(before: seq<string>, a: string, b: string, after: seq<string>)
    ensures HashInput(before + ([a, b] + after)) == HashInput(before + ([a + ['\U{0}'] + b] + after))
  {
    hide HashInput;
    HashOne(a);
    HashOne(b);
    HashOne(a + ['\U{0}'] + b);
    assert [a] + [b] == [a, b];
    HashInputConcat([a], [b]);
    assert a + ['\U{0}'] + b + ['\U{0}'] == (a + ['\U{0}']) + (b + ['\U{0}']);
    HashInputConcat([a, b], after);
    HashInputConcat([a + ['\U{0}'] + b], after);
    HashInputConcat(before, [a, b] + after);
    HashInputConcat(before, [a + ['\U{0}'] + b] + after);
  }

  // ------------------------------------------------------------------- from the parts

  lemma {:induction false} FieldsDecode(x: seq<Pair>, s: seq<string>, y: seq<Pair>, t: seq<string>)
    requires s != [] && t != [] && s[0] != "field" && t[0] != "field"
    requires FieldParts(x) + s == FieldParts(y) + t
    ensures x == y && s == t
    decreases |x|
  {
    var a, b := FieldParts(x) + s, FieldParts(y) + t;
    assert x == [] ==> a == s;
    assert y == [] ==> b == t;
    assert x != [] ==> a[0] == "field" && a[1] == x[0].name && a[2] == x[0].value && a[3..] == FieldParts(x[1..]) + s;
    assert y != [] ==> b[0] == "field" && b[1] == y[0].name && b[2] == y[0].value && b[3..] == FieldParts(y[1..]) + t;
    if x != [] {
      FieldsDecode(x[1..], s, y[1..], t);
      assert x == [x[0]] + x[1..] && y == [y[0]] + y[1..];
    }
  }

  lemma LinesCons(x: seq<string>, s: seq<string>)
    requires x != []
    ensures LineParts(x) + s == ["display-line", x[0]] + (LineParts(x[1..]) + s)
  {
    Assoc(["display-line", x[0]], LineParts(x[1..]), s);
  }

  lemma {:induction false} LinesDecode(x: seq<string>, s: seq<string>, y: seq<string>, t: seq<string>)
    requires (s != [] ==> s[0] != "display-line") && (t != [] ==> t[0] != "display-line")
    requires LineParts(x) + s == LineParts(y) + t
    ensures x == y && s == t
    decreases |x|
  {
    var a, b := LineParts(x) + s, LineParts(y) + t;
    assert x == [] ==> a == s;
    assert y == [] ==> b == t;
    if x != [] {
      LinesCons(x, s);
    }
    if y != [] {
      LinesCons(y, t);
    }
    hide LineParts;
    assert x != [] ==> a[0] == "display-line" && a[1] == x[0];
    assert y != [] ==> b[0] == "display-line" && b[1] == y[0];
    if x != [] {
      HeadsDecode(["display-line", x[0]], LineParts(x[1..]) + s, ["display-line", y[0]], LineParts(y[1..]) + t);
      LinesDecode(x[1..], s, y[1..], t);
      assert x == [x[0]] + x[1..] && y == [y[0]] + y[1..];
    }
  }

  lemma {:induction false} ValuesDecode(x: seq<Quad>, y: seq<Quad>)
    requires ValueParts(x) == ValueParts(y)
    ensures x == y
    decreases |x|
  {
    var a, b := ValueParts(x), ValueParts(y);
    assert x != [] ==> a[1] == x[0].name && a[2] == x[0].raw && a[3] == x[0].value && a[4..] == ValueParts(x[1..]);
    assert y != [] ==> b[1] == y[0].name && b[2] == y[0].raw && b[3] == y[0].value && b[4..] == ValueParts(y[1..]);
    if x != [] {
      ValuesDecode(x[1..], y[1..]);
      assert x == [x[0]] + x[1..] && y == [y[0]] + y[1..];
    }
  }

  lemma InsertedElements(before: seq<string>, after: seq<string>, x: string, y: string)
    requires Inserted(before, after, x)
    ensures y in after <==> y in before || y == x
  {
    var i :| 0 <= i <= |before| && after == before[..i] + [x] + before[i..];
    assert before == before[..i] + before[i..];
  }

  lemma {:induction false} SortElements(sort: set<string> -> seq<string>, names: set<string>, y: string)
    requires Sorts(sort)
    ensures y in sort(names) <==> y in names
    decreases names
  {
    if names != {} {
      var x :| x in names;
      var fewer := names - {x};
      SortElements(sort, fewer, y);
      assert SortsNext(sort, fewer, x);
      hide Sorts, Inserted;
      assert fewer + {x} == names;
      InsertedElements(sort(fewer), sort(names), x, y);
    }
  }

  lemma PairsAre(sort: set<string> -> seq<string>, m: map<string, string>, p: Pair)
    requires Sorts(sort)
    ensures p in Pairs(sort(m.Keys), m) <==> p.name in m && m[p.name] == p.value
  {
    var names := sort(m.Keys);
    SortElements(sort, m.Keys, p.name);
    hide Sorts;
    if p in Pairs(names, m) {
      var i :| 0 <= i < |names| && Pairs(names, m)[i] == p;
      assert names[i] in names;
    }
    if p.name in m && m[p.name] == p.value {
      var i :| 0 <= i < |names| && names[i] == p.name;
      assert Pairs(names, m)[i] == p;
    }
  }

  lemma QuadsAre(name: string, pairs: seq<Pair>, q: Quad)
    ensures q in QuadsOf(name, pairs) <==> q.name == name && Pair(q.raw, q.value) in pairs
  {
    if q.name == name && Pair(q.raw, q.value) in pairs {
      var i :| 0 <= i < |pairs| && pairs[i] == Pair(q.raw, q.value);
      assert QuadsOf(name, pairs)[i] == q;
    }
  }

  lemma {:induction false} QuadListIs(
    lib: Library, names: seq<string>, maps: map<string, map<string, string>>, q: Quad)
    requires Sorts(lib.sort)
    ensures q in QuadList(lib, names, maps) <==>
      q.name in names && q.raw in MapOf(maps, q.name) && MapOf(maps, q.name)[q.raw] == q.value
  {
    if names != [] {
      var m := MapOf(maps, names[0]);
      QuadListIs(lib, names[1..], maps, q);
      QuadsAre(names[0], Pairs(lib.sort(m.Keys), m), q);
      PairsAre(lib.sort, m, Pair(q.raw, q.value));
      hide Sorts, QuadsOf, Pairs, MapOf;
      assert q.name in names <==> q.name == names[0] || q.name in names[1..];
    }
  }

  predicate Holds(m: map<string, string>, name: string, value: string) {
    name in m && m[name] == value
  }

  lemma SameEntries(x: map<string, string>, y: map<string, string>)
    requires forall name, value :: Holds(x, name, value) <==> Holds(y, name, value)
    ensures x == y
  {
    forall name ensures name in x <==> name in y {
      assert name in x ==> Holds(x, name, x[name]);
      assert name in y ==> Holds(y, name, y[name]);
    }
    forall name | name in x ensures x[name] == y[name] {
      assert Holds(x, name, x[name]);
    }
  }

  lemma SameFields(lib: Library, x: Quota, y: Quota)
    requires Sorts(lib.sort) && FieldPairs(lib, x) == FieldPairs(lib, y)
    ensures x.fields == y.fields
  {
    forall name, value ensures Holds(x.fields, name, value) <==> Holds(y.fields, name, value) {
      PairsAre(lib.sort, x.fields, Pair(name, value));
      PairsAre(lib.sort, y.fields, Pair(name, value));
    }
    SameEntries(x.fields, y.fields);
  }

  lemma ValueQuadsAre(lib: Library, q: Quota, x: Quad)
    requires Sorts(lib.sort)
    ensures x in ValueQuads(lib, q) <==> Holds(MapOf(q.valueMaps, x.name), x.raw, x.value)
  {
    SortElements(lib.sort, q.valueMaps.Keys, x.name);
    QuadListIs(lib, lib.sort(q.valueMaps.Keys), q.valueMaps, x);
  }

  lemma SameMaps(lib: Library, x: Quota, y: Quota, name: string)
    requires Sorts(lib.sort) && ValueQuads(lib, x) == ValueQuads(lib, y)
    ensures MapOf(x.valueMaps, name) == MapOf(y.valueMaps, name)
  {
    forall raw, value
      ensures Holds(MapOf(x.valueMaps, name), raw, value) <==> Holds(MapOf(y.valueMaps, name), raw, value)
    {
      ValueQuadsAre(lib, x, Quad(name, raw, value));
      ValueQuadsAre(lib, y, Quad(name, raw, value));
    }
    hide Sorts, ValueQuads, Holds;
    SameEntries(MapOf(x.valueMaps, name), MapOf(y.valueMaps, name));
  }

  lemma NonEmptyMap(maps: map<string, map<string, string>>, name: string)
    ensures name in NonEmpty(maps) <==> MapOf(maps, name) != map[]
    ensures name in NonEmpty(maps) ==> NonEmpty(maps)[name] == MapOf(maps, name)
  {
  }

  lemma SameValueMaps(lib: Library, x: Quota, y: Quota)
    requires Sorts(lib.sort) && ValueQuads(lib, x) == ValueQuads(lib, y)
    ensures NonEmpty(x.valueMaps) == NonEmpty(y.valueMaps)
  {
    var m, n := NonEmpty(x.valueMaps), NonEmpty(y.valueMaps);
    hide Sorts, ValueQuads, NonEmpty, MapOf;
    forall name ensures name in m <==> name in n {
      SameMaps(lib, x, y, name);
      NonEmptyMap(x.valueMaps, name);
      NonEmptyMap(y.valueMaps, name);
    }
    forall name | name in m ensures m[name] == n[name] {
      SameMaps(lib, x, y, name);
      NonEmptyMap(x.valueMaps, name);
      NonEmptyMap(y.valueMaps, name);
    }
  }

  lemma HeadsDecode(a: seq<string>, s: seq<string>, b: seq<string>, t: seq<string>)
    requires |a| == |b| && a + s == b + t
    ensures a == b && s == t
  {
    assert (a + s)[..|a|] == a && (b + t)[..|b|] == b;
    assert (a + s)[|a|..] == s && (b + t)[|b|..] == t;
  }

  lemma PartsDecode(lib: Library, x: Quota, i: int, k: string, y: Quota, j: int, l: string)
    requires Sorts(lib.sort) && Parts(lib, x, i, k) == Parts(lib, y, j, l)
    ensures Head(lib, x, i, k) == Head(lib, y, j, l) && x.title == y.title && x.lines == y.lines
    ensures FieldPairs(lib, x) == FieldPairs(lib, y) && ValueQuads(lib, x) == ValueQuads(lib, y)
  {
    var vx, vy := ValueParts(ValueQuads(lib, x)), ValueParts(ValueQuads(lib, y));
    var lx, ly := LineParts(x.lines) + vx, LineParts(y.lines) + vy;
    var tx, ty := ["display-title", x.title] + lx, ["display-title", y.title] + ly;
    assert vx != [] ==> vx[0] == "value-map";
    assert vy != [] ==> vy[0] == "value-map";
    assert tx[0] == "display-title" && ty[0] == "display-title";
    HeadsDecode(
      Head(lib, x, i, k), FieldParts(FieldPairs(lib, x)) + tx,
      Head(lib, y, j, l), FieldParts(FieldPairs(lib, y)) + ty);
    hide Sorts, Head, FieldPairs, ValueQuads, FieldParts, LineParts, ValueParts;
    FieldsDecode(FieldPairs(lib, x), tx, FieldPairs(lib, y), ty);
    HeadsDecode(["display-title", x.title], lx, ["display-title", y.title], ly);
    LinesDecode(x.lines, vx, y.lines, vy);
    ValuesDecode(ValueQuads(lib, x), ValueQuads(lib, y));
    assert ["display-title", x.title][1] == x.title && ["display-title", y.title][1] == y.title;
  }

  // --------------------------------------------------------------------- to the parts

  lemma {:induction false} QuadListConcat(
    lib: Library, x: seq<string>, y: seq<string>, maps: map<string, map<string, string>>)
    ensures QuadList(lib, x + y, maps) == QuadList(lib, x, maps) + QuadList(lib, y, maps)
  {
    hide QuadsIn, MapOf;
    if x == [] {
      assert x + y == y;
    } else {
      QuadListConcat(lib, x[1..], y, maps);
      assert (x + y)[1..] == x[1..] + y;
      Assoc(QuadsIn(lib, x[0], MapOf(maps, x[0])), QuadList(lib, x[1..], maps), QuadList(lib, y, maps));
    }
  }

  lemma EmptyQuads(lib: Library, name: string, maps: map<string, map<string, string>>)
    requires Sorts(lib.sort) && MapOf(maps, name) == map[]
    ensures QuadList(lib, [name], maps) == []
  {
    assert MapOf(maps, name).Keys == {};
    assert [name][1..] == [] && QuadList(lib, [], maps) == [];
  }

  /** A value map without entries leaves no trace. */
  lemma EmptyLeavesNoTrace(lib: Library, names: set<string>, x: string, maps: map<string, map<string, string>>)
    requires Sorts(lib.sort) && x !in names && MapOf(maps, x) == map[]
    ensures QuadList(lib, lib.sort(names + {x}), maps) == QuadList(lib, lib.sort(names), maps)
  {
    EmptyQuads(lib, x, maps);
    assert SortsNext(lib.sort, names, x);
    var before, after := lib.sort(names), lib.sort(names + {x});
    var i :| 0 <= i <= |before| && after == before[..i] + [x] + before[i..];
    hide Sorts, Inserted, QuadList, MapOf;
    assert before == before[..i] + before[i..];
    QuadListConcat(lib, before[..i], before[i..], maps);
    QuadListConcat(lib, before[..i] + [x], before[i..], maps);
    QuadListConcat(lib, before[..i], [x], maps);
  }

  lemma {:induction false} EmptiesLeaveNoTrace(
    lib: Library, names: set<string>, empties: set<string>, maps: map<string, map<string, string>>)
    requires Sorts(lib.sort) && names !! empties && forall x :: x in empties ==> MapOf(maps, x) == map[]
    ensures QuadList(lib, lib.sort(names + empties), maps) == QuadList(lib, lib.sort(names), maps)
    decreases empties
  {
    hide Sorts, QuadList, MapOf;
    if empties == {} {
      assert names + empties == names;
    } else {
      var x :| x in empties;
      EmptiesLeaveNoTrace(lib, names, empties - {x}, maps);
      EmptyLeavesNoTrace(lib, names + (empties - {x}), x, maps);
      assert names + (empties - {x}) + {x} == names + empties;
    }
  }

  lemma {:induction false} QuadListSame(
    lib: Library, names: seq<string>, m: map<string, map<string, string>>, n: map<string, map<string, string>>)
    requires forall i :: 0 <= i < |names| ==> MapOf(m, names[i]) == MapOf(n, names[i])
    ensures QuadList(lib, names, m) == QuadList(lib, names, n)
  {
    hide QuadsIn, MapOf;
    if names != [] {
      QuadListSame(lib, names[1..], m, n);
    }
  }

  lemma NormalQuads(lib: Library, q: Quota)
    requires Sorts(lib.sort)
    ensures ValueQuads(lib, q) == ValueQuads(lib, Normal(q))
  {
    var maps, fewer := q.valueMaps, NonEmpty(q.valueMaps);
    var empties, names := Empties(maps), NonEmpty(maps).Keys;
    assert names + empties == maps.Keys;
    EmptiesLeaveNoTrace(lib, names, empties, maps);
    forall x | x in lib.sort(names) ensures MapOf(maps, x) == MapOf(fewer, x) {
      SortElements(lib.sort, names, x);
    }
    hide Sorts, QuadList, MapOf, NonEmpty;
    QuadListSame(lib, lib.sort(names), maps, fewer);
  }

  // ------------------------------------------------------------------------ the theorem

  ghost predicate Distinguishes(duration: int -> string) {
    && (forall i, j :: duration(i) == duration(j) ==> i == j)
    && forall i :: '\U{0}' !in duration(i)
  }

  /** No setting holds a NUL. */
  ghost predicate Clean(q: Quota, apiKey: string) {
    && NulFree([q.url, q.itemsPath, q.title, apiKey])
    && NulFree(q.lines)
    && (forall name, value :: Holds(q.fields, name, value) ==> NulFree([name, value]))
    && forall name, raw, value :: Holds(MapOf(q.valueMaps, name), raw, value) ==> NulFree([name, raw, value])
  }

  /** Exactly which configurations have the same parts: those that are the same but for spaces
      around the address and the items path and for value maps without entries. */
  lemma SamePartsIff(lib: Library, x: Quota, i: int, k: string, y: Quota, j: int, l: string)
    requires Sorts(lib.sort) && Distinguishes(lib.duration)
    ensures Parts(lib, x, i, k) == Parts(lib, y, j, l) <==> Normal(x) == Normal(y) && i == j && k == l
  {
    NormalQuads(lib, x);
    NormalQuads(lib, y);
    hide Sorts, FieldPairs, ValueQuads, NonEmpty, Text.TrimSpace;
    if Parts(lib, x, i, k) == Parts(lib, y, j, l) {
      PartsDecode(lib, x, i, k, y, j, l);
      HeadIs(lib, x, i, k, y, j, l);
      SameFields(lib, x, y);
      SameValueMaps(lib, x, y);
    }
    if Normal(x) == Normal(y) && i == j && k == l {
      SameNormalParts(lib, x, y, i, k);
    }
  }

  lemma SameNormalParts(lib: Library, x: Quota, y: Quota, i: int, k: string)
    requires Normal(x) == Normal(y) && ValueQuads(lib, x) == ValueQuads(lib, y)
    ensures Parts(lib, x, i, k) == Parts(lib, y, i, k)
  {
    hide ValueQuads, NonEmpty, Text.TrimSpace, Pairs, FieldParts, LineParts, ValueParts;
    assert x.fields == y.fields && x.title == y.title && x.lines == y.lines;
  }

  lemma HeadIs(lib: Library, x: Quota, i: int, k: string, y: Quota, j: int, l: string)
    requires Distinguishes(lib.duration) && Head(lib, x, i, k) == Head(lib, y, j, l)
    ensures Text.TrimSpace(x.url) == Text.TrimSpace(y.url) && Text.TrimSpace(x.itemsPath) == Text.TrimSpace(y.itemsPath)
    ensures i == j && k == l
  {
    hide Text.TrimSpace;
    var a, b := Head(lib, x, i, k), Head(lib, y, j, l);
    assert a[0] == b[0] && a[1] == b[1] && a[2] == b[2] && a[3] == b[3];
  }

  lemma {:induction false} FieldPartsClean(pairs: seq<Pair>)
    requires forall p :: p in pairs ==> NulFree([p.name, p.value])
    ensures NulFree(FieldParts(pairs))
  {
    if pairs != [] {
      FieldPartsClean(pairs[1..]);
      assert NulFree([pairs[0].name, pairs[0].value]);
      assert pairs[0].name in [pairs[0].name, pairs[0].value] && pairs[0].value in [pairs[0].name, pairs[0].value];
    }
  }

  lemma {:induction false} LinePartsClean(lines: seq<string>)
    requires NulFree(lines)
    ensures NulFree(LineParts(lines))
  {
    if lines != [] {
      LinePartsClean(lines[1..]);
    }
  }

  lemma {:induction false} ValuePartsClean(quads: seq<Quad>)
    requires forall q :: q in quads ==> NulFree([q.name, q.raw, q.value])
    ensures NulFree(ValueParts(quads))
  {
    if quads != [] {
      ValuePartsClean(quads[1..]);
      var three := [quads[0].name, quads[0].raw, quads[0].value];
      assert NulFree(three);
      assert quads[0].name in three && quads[0].raw in three && quads[0].value in three;
    }
  }

  lemma HeadClean(lib: Library, q: Quota, interval: int, apiKey: string)
    requires Distinguishes(lib.duration) && Clean(q, apiKey)
    ensures NulFree(Head(lib, q, interval, apiKey)) && NulFree(["display-title", q.title])
  {
    var four := [q.url, q.itemsPath, q.title, apiKey];
    assert q.url in four && q.itemsPath in four && q.title in four && apiKey in four;
    Text.TrimIsIdempotent(q.url);
    Text.TrimIsIdempotent(q.itemsPath);
  }

  lemma ListsClean(lib: Library, q: Quota, apiKey: string)
    requires Sorts(lib.sort) && Clean(q, apiKey)
    ensures NulFree(FieldParts(FieldPairs(lib, q))) && NulFree(ValueParts(ValueQuads(lib, q)))
  {
    forall p | p in FieldPairs(lib, q) ensures NulFree([p.name, p.value]) {
      PairsAre(lib.sort, q.fields, p);
      assert Holds(q.fields, p.name, p.value);
    }
    forall x | x in ValueQuads(lib, q) ensures NulFree([x.name, x.raw, x.value]) {
      ValueQuadsAre(lib, q, x);
    }
    hide Sorts, NulFree, FieldPairs, ValueQuads;
    FieldPartsClean(FieldPairs(lib, q));
    ValuePartsClean(ValueQuads(lib, q));
  }

  lemma NulFreeConcat(x: seq<string>, y: seq<string>)
    requires NulFree(x) && NulFree(y)
    ensures NulFree(x + y)
  {
  }

  lemma PartsClean(lib: Library, q: Quota, interval: int, apiKey: string)
    requires Sorts(lib.sort) && Distinguishes(lib.duration) && Clean(q, apiKey)
    ensures NulFree(Parts(lib, q, interval, apiKey))
  {
    HeadClean(lib, q, interval, apiKey);
    ListsClean(lib, q, apiKey);
    LinePartsClean(q.lines);
    var fields, values := FieldParts(FieldPairs(lib, q)), ValueParts(ValueQuads(lib, q));
    hide Sorts, Distinguishes, NulFree, Head, FieldPairs, ValueQuads, FieldParts, LineParts, ValueParts;
    NulFreeConcat(LineParts(q.lines), values);
    NulFreeConcat(["display-title", q.title], LineParts(q.lines) + values);
    NulFreeConcat(fields, ["display-title", q.title] + (LineParts(q.lines) + values));
    NulFreeConcat(
      Head(lib, q, interval, apiKey), fields + (["display-title", q.title] + (LineParts(q.lines) + values)));
  }

  /** The same for what is hashed, if no setting holds a NUL. */
  lemma SameHashInputIff(lib: Library, x: Quota, i: int, k: string, y: Quota, j: int, l: string)
    requires Sorts(lib.sort) && Distinguishes(lib.duration) && Clean(x, k) && Clean(y, l)
    ensures HashInput(Parts(lib, x, i, k)) == HashInput(Parts(lib, y, j, l)) <==>
      Normal(x) == Normal(y) && i == j && k == l
  {
    SamePartsIff(lib, x, i, k, y, j, l);
    PartsClean(lib, x, i, k);
    PartsClean(lib, y, j, l);
    hide Parts, Normal, HashInput, NulFree, Sorts, Distinguishes, Clean;
    if HashInput(Parts(lib, x, i, k)) == HashInput(Parts(lib, y, j, l)) {
      HashInputInjective(Parts(lib, x, i, k), Parts(lib, y, j, l));
    }
  }

  /** A line with a NUL and a tag inside shares its hash input with two lines. */
  lemma NulLineCollides(lib: Library, q: Quota, interval: int, apiKey: string, a: string, b: string)
    ensures HashInput(Parts(lib, q.(lines := [a, b]), interval, apiKey))
         == HashInput(Parts(lib, q.(lines := [a + "\U{0}display-line\U{0}" + b]), interval, apiKey))
  {
    var tag := "display-line";
    var half := a + ['\U{0}'] + tag;
    var before := Head(lib, q, interval, apiKey) + FieldParts(FieldPairs(lib, q)) + ["display-title", q.title, tag];
    var after := ValueParts(ValueQuads(lib, q));
    var one := half + ['\U{0}'] + b;
    NulInLine(a, b);
    TwoLines(lib, q, interval, apiKey, a, b);
    OneLine(lib, q, interval, apiKey, one);
    hide *;
    NulMerges(before, a, tag, [b] + after);
    NulMerges(before, half, b, after);
    assert [a, tag] + ([b] + after) == [a, tag, b] + after && [half] + ([b] + after) == [half, b] + after;
  }

  lemma NulInLine(a: string, b: string)
    ensures a + "\U{0}display-line\U{0}" + b == a + ['\U{0}'] + "display-line" + ['\U{0}'] + b
  {
    assert "\U{0}display-line\U{0}" == ['\U{0}'] + "display-line" + ['\U{0}'];
  }

  lemma TwoLines(lib: Library, q: Quota, interval: int, apiKey: string, a: string, b: string)
    ensures Parts(lib, q.(lines := [a, b]), interval, apiKey)
         == Head(lib, q, interval, apiKey) + FieldParts(FieldPairs(lib, q)) + ["display-title", q.title, "display-line"]
            + ([a, "display-line", b] + ValueParts(ValueQuads(lib, q)))
  {
    LinePartsCons(a, [b]);
    LinePartsCons(b, []);
    assert LineParts([]) == [];
    hide Head, FieldPairs, ValueQuads, FieldParts, LineParts, ValueParts;
  }

  lemma OneLine(lib: Library, q: Quota, interval: int, apiKey: string, a: string)
    ensures Parts(lib, q.(lines := [a]), interval, apiKey)
         == Head(lib, q, interval, apiKey) + FieldParts(FieldPairs(lib, q)) + ["display-title", q.title, "display-line"]
            + ([a] + ValueParts(ValueQuads(lib, q)))
  {
    LinePartsCons(a, []);
    assert [a] + [] == [a] && LineParts([]) == [];
    hide Head, FieldPairs, ValueQuads, FieldParts, LineParts, ValueParts;
  }

  lemma LinePartsCons(a: string, more: seq<string>)
    ensures LineParts([a] + more) == ["display-line", a] + LineParts(more)
  {
    assert ([a] + more)[1..] == more;
  }
}
