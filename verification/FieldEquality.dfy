// fieldsEqual and fieldKeys: two property groups are compared through a canonical,
// sorted list of one string per field.
module FieldEquality {
  import opened Strings
  import opened Vcard

  const NUL := '\0'

  // ---- Specification ----------------------------------------------------------------

  // Some listing of a set; Go's map iteration picks one at run time.
  ghost function Listing(s: set<string>): (r: seq<string>)
    ensures Lists(r, s)
    decreases |s|
  {
    if s == {} then [] else
      var x :| x in s;
      [x] + Listing(s - {x})
  }

  ghost predicate Lists(r: seq<string>, s: set<string>) {
    && (forall x :: x in r <==> x in s)
    && (forall i, j | 0 <= i < j < |r| :: r[i] != r[j])
  }

  ghost function SortedNames(s: set<string>): seq<string> {
    SortStrings(Listing(s))
  }

  // strings.Join(vals, ",")
  function Join(vals: seq<string>): string {
    if vals == [] then "" else if |vals| == 1 then vals[0] else vals[0] + "," + Join(vals[1..])
  }

  function ParamValues(params: map<string, seq<string>>, name: string): seq<string> {
    if name in params then params[name] else []
  }

  function Segment(params: map<string, seq<string>>, name: string): string {
    [NUL] + (name + ("=" + Join(SortStrings(ParamValues(params, name)))))
  }

  function ParamText(params: map<string, seq<string>>, names: seq<string>): string {
    if names == [] then "" else Segment(params, names[0]) + ParamText(params, names[1..])
  }

  ghost function Key(f: Field): string {
    f.value + ParamText(f.params, SortedNames(f.params.Keys))
  }

  ghost function Keys(fields: seq<Field>): (r: seq<string>)
    ensures |r| == |fields|
    ensures forall i | 0 <= i < |fields| :: r[i] == Key(fields[i])
  {
    seq(|fields|, i requires 0 <= i < |fields| => Key(fields[i]))
  }

  ghost function KeyBag(fields: seq<Field>): multiset<string> {
    multiset(Keys(fields))
  }

  // Equality of property groups: the same canonical keys, equally often.
  ghost predicate FieldsEqual(a: seq<Field>, b: seq<Field>) {
    |a| == |b| && KeyBag(a) == KeyBag(b)
  }

  // ---- The code ---------------------------------------------------------------------

  // Every listing of the parameter names sorts to the same list, so the key does not
  // depend on map iteration order.
  lemma ListingIrrelevant(r: seq<string>, s: set<string>)
    requires Lists(r, s)
    ensures SortStrings(r) == SortedNames(s)
  {
    DistinctMultiset(r, s);
    DistinctMultiset(Listing(s), s);
    SortCanonical(r, Listing(s));
  }

  lemma {:induction false} DistinctMultiset(r: seq<string>, s: set<string>)
    requires Lists(r, s)
    ensures multiset(r) == multiset(s)
    decreases |r|
  {
    if r == [] {
      assert s == {};
    } else {
      assert r == [r[0]] + r[1..];
      forall x ensures x in r[1..] <==> x in s - {r[0]} {
        if x in r[1..] { var i :| 0 <= i < |r[1..]| && r[1..][i] == x; assert x == r[i + 1]; }
        if x in s - {r[0]} { var i :| 0 <= i < |r| && r[i] == x; assert x == r[1..][i - 1]; }
      }
      DistinctMultiset(r[1..], s - {r[0]});
    }
  }

  method SortedParamNames(params: map<string, seq<string>>) returns (names: seq<string>)
    ensures names == SortedNames(params.Keys)
  {
    names := [];
    var pending := params.Keys;
    while pending != {}
      invariant pending <= params.Keys
      invariant Lists(names, params.Keys - pending)
      decreases |pending|
    {
      var p :| p in pending;
      names := names + [p];
      pending := pending - {p};
    }
    assert params.Keys - pending == params.Keys;
    ListingIrrelevant(names, params.Keys);
    names := SortStrings(names);
  }

  lemma AppendSegment(key: string, params: map<string, seq<string>>, names: seq<string>, i: nat)
    requires i < |names|
    ensures key + ParamText(params, names[i..])
         == key + Segment(params, names[i]) + ParamText(params, names[i + 1..])
  {
    assert names[i..][0] == names[i] && names[i..][1..] == names[i + 1..];
  }

  method ComputeKey(f: Field) returns (key: string)
    ensures key == Key(f)
  {
    key := f.value;
    var paramNames := SortedParamNames(f.params);
    assert paramNames[0..] == paramNames;
    var i := 0;
    while i < |paramNames|
      invariant 0 <= i <= |paramNames|
      invariant key + ParamText(f.params, paramNames[i..]) == Key(f)
    {
      AppendSegment(key, f.params, paramNames, i);
      key := key + Segment(f.params, paramNames[i]);
      i := i + 1;
    }
    assert key + "" == key;
  }

  method ComputeFieldKeys(fields: seq<Field>) returns (keys: seq<string>)
    ensures keys == SortStrings(Keys(fields))
  {
    keys := [];
    for i := 0 to |fields|
      invariant |keys| == i
      invariant forall j | 0 <= j < i :: keys[j] == Key(fields[j])
    {
      var key := ComputeKey(fields[i]);
      keys := keys + [key];
    }
    assert keys == Keys(fields);
    keys := SortStrings(keys);
  }

  method SameList(ka: seq<string>, kb: seq<string>) returns (same: bool)
    requires |ka| == |kb|
    ensures same == (ka == kb)
  {
    for i := 0 to |ka|
      invariant forall j | 0 <= j < i :: ka[j] == kb[j]
    {
      if ka[i] != kb[i] {
        return false;
      }
    }
    return true;
  }

  // The source's comparison, element by element on the sorted keys, decides FieldsEqual.
  method CompareFields(a: seq<Field>, b: seq<Field>) returns (equal: bool)
    ensures equal == FieldsEqual(a, b)
  {
    if |a| != |b| {
      return false;
    }
    var ka := ComputeFieldKeys(a);
    var kb := ComputeFieldKeys(b);
    SortCanonical(Keys(a), Keys(b));
    equal := SameList(ka, kb);
  }

  // ---- What the canonical key means -------------------------------------------------

  // A field's content: its value and, per parameter name, the multiset of values.
  datatype Content = Content(value: string, params: map<string, multiset<string>>)

  ghost function Meaning(f: Field): Content {
    Content(f.value, map p | p in f.params :: multiset(f.params[p]))
  }

  ghost function Meanings(fields: seq<Field>): (r: seq<Content>)
    ensures |r| == |fields|
    ensures forall i | 0 <= i < |fields| :: r[i] == Meaning(fields[i])
  {
    seq(|fields|, i requires 0 <= i < |fields| => Meaning(fields[i]))
  }

  // No separator of the key occurs inside a component, and no parameter is value-less.
  ghost predicate Separable(f: Field) {
    && NUL !in f.value
    && forall p | p in f.params ::
         && NUL !in p && '=' !in p
         && f.params[p] != []
         && forall v | v in f.params[p] :: NUL !in v && ',' !in v
  }

  // Text up to a separator is determined when neither side's text contains it.
  lemma {:induction false} SplitAtSeparator(sep: char, u: string, s: string, v: string, t: string)
    requires sep !in u && sep !in v
    requires (s == "" || s[0] == sep) && (t == "" || t[0] == sep)
    requires u + s == v + t
    ensures u == v && s == t
    decreases |u|
  {
    if u == "" {
      assert u + s == s;
      EmptyBeforeSeparator(sep, v, t);
      assert v + t == t;
    } else {
      EmptyBeforeSeparator(sep, u, s);
      assert v == "" ==> v + t == t;
      assert (u + s)[0] == u[0] && (v + t)[0] == v[0];
      assert (u + s)[1..] == u[1..] + s && (v + t)[1..] == v[1..] + t;
      SplitAtSeparator(sep, u[1..], s, v[1..], t);
      assert u == [u[0]] + u[1..] && v == [v[0]] + v[1..];
    }
  }

  lemma EmptyBeforeSeparator(sep: char, v: string, t: string)
    requires sep !in v
    ensures (v + t == "" || (v + t)[0] == sep) ==> v == ""
  {
    assert v != "" ==> (v + t)[0] == v[0];
  }

  lemma {:induction false} JoinAvoids(c: char, vals: seq<string>)
    requires c != ','
    requires forall v | v in vals :: c !in v
    ensures c !in Join(vals)
  {
    if |vals| > 1 {
      JoinAvoids(c, vals[1..]);
    }
  }

  lemma {:induction false} JoinInjective(a: seq<string>, b: seq<string>)
    requires a != [] && b != []
    requires forall v | v in a :: ',' !in v
    requires forall v | v in b :: ',' !in v
    requires Join(a) == Join(b)
    ensures a == b
    decreases |a|
  {
    var s := if |a| == 1 then "" else "," + Join(a[1..]);
    var t := if |b| == 1 then "" else "," + Join(b[1..]);
    assert Join(a) == a[0] + s && Join(b) == b[0] + t;
    SplitAtSeparator(',', a[0], s, b[0], t);
    if |a| > 1 {
      assert |b| > 1;
      assert s[1..] == Join(a[1..]) && t[1..] == Join(b[1..]);
      JoinInjective(a[1..], b[1..]);
      assert a == [a[0]] + a[1..] && b == [b[0]] + b[1..];
    } else {
      assert a == [a[0]] && b == [b[0]];
    }
  }

  ghost predicate SeparableParams(params: map<string, seq<string>>, names: seq<string>) {
    forall p | p in names ::
      && p in params && NUL !in p && '=' !in p
      && params[p] != []
      && forall v | v in params[p] :: NUL !in v && ',' !in v
  }

  lemma SegmentInjective(p: map<string, seq<string>>, m: string, s: string,
                         q: map<string, seq<string>>, n: string, t: string)
    requires SeparableParams(p, [m]) && SeparableParams(q, [n])
    requires (s == "" || s[0] == NUL) && (t == "" || t[0] == NUL)
    requires Segment(p, m) + s == Segment(q, n) + t
    ensures m == n && multiset(p[m]) == multiset(q[n]) && s == t
  {
    assert m in [m] && n in [n];
    var u, v := SortStrings(p[m]), SortStrings(q[n]);
    SortedValues(p[m]);
    SortedValues(q[n]);
    SegmentTail(p, m, s);
    SegmentTail(q, n, t);
    SplitAtSeparator('=', m, "=" + (Join(u) + s), n, "=" + (Join(v) + t));
    assert ("=" + (Join(u) + s))[1..] == Join(u) + s && ("=" + (Join(v) + t))[1..] == Join(v) + t;
    JoinAvoids(NUL, u);
    JoinAvoids(NUL, v);
    SplitAtSeparator(NUL, Join(u), s, Join(v), t);
    JoinInjective(u, v);
  }

  lemma SortedValues(vals: seq<string>)
    ensures multiset(SortStrings(vals)) == multiset(vals)
    ensures forall v | v in SortStrings(vals) :: v in vals
  {
    SortStringsCorrect(vals);
    forall v | v in SortStrings(vals) ensures v in vals {
      assert v in multiset(SortStrings(vals));
    }
  }

  lemma SegmentTail(p: map<string, seq<string>>, m: string, s: string)
    requires m in p
    ensures (Segment(p, m) + s)[1..] == m + ("=" + (Join(SortStrings(p[m])) + s))
  {
  }

  lemma {:induction false} ParamTextInjective(p: map<string, seq<string>>, m: seq<string>,
                                              q: map<string, seq<string>>, n: seq<string>)
    requires SeparableParams(p, m) && SeparableParams(q, n)
    requires ParamText(p, m) == ParamText(q, n)
    ensures m == n
    ensures forall x | x in m :: multiset(p[x]) == multiset(q[x])
    decreases |m|
  {
    if m != [] && n != [] {
      SegmentInjective(p, m[0], ParamText(p, m[1..]), q, n[0], ParamText(q, n[1..]));
      ParamTextInjective(p, m[1..], q, n[1..]);
      assert m == [m[0]] + m[1..] && n == [n[0]] + n[1..];
    }
  }

  lemma SortedNamesMembers(s: set<string>)
    ensures forall x :: x in SortedNames(s) <==> x in s
  {
    SortStringsCorrect(Listing(s));
    forall x ensures x in SortedNames(s) <==> x in s {
      assert x in SortedNames(s) <==> x in multiset(SortedNames(s));
      assert x in Listing(s) <==> x in multiset(Listing(s));
    }
  }

  lemma {:induction false} ParamTextSame(p: map<string, seq<string>>, q: map<string, seq<string>>, names: seq<string>)
    requires forall x | x in names :: multiset(ParamValues(p, x)) == multiset(ParamValues(q, x))
    ensures ParamText(p, names) == ParamText(q, names)
  {
    if names != [] {
      SortCanonical(ParamValues(p, names[0]), ParamValues(q, names[0]));
      ParamTextSame(p, q, names[1..]);
    }
  }

  // Equal content always gives equal keys.
  lemma KeyOfMeaning(f: Field, g: Field)
    requires Meaning(f) == Meaning(g)
    ensures Key(f) == Key(g)
  {
    var mf, mg := Meaning(f).params, Meaning(g).params;
    assert f.params.Keys == mf.Keys && g.params.Keys == mg.Keys;
    forall x | x in SortedNames(f.params.Keys)
      ensures multiset(ParamValues(f.params, x)) == multiset(ParamValues(g.params, x))
    {
      if x in mf {
        assert mf[x] == mg[x];
      }
    }
    ParamTextSame(f.params, g.params, SortedNames(f.params.Keys));
  }

  lemma KeyParts(f: Field, g: Field, m: seq<string>, n: seq<string>)
    requires NUL !in f.value && NUL !in g.value
    requires SeparableParams(f.params, m) && SeparableParams(g.params, n)
    requires f.value + ParamText(f.params, m) == g.value + ParamText(g.params, n)
    ensures f.value == g.value && m == n && forall x | x in m :: multiset(f.params[x]) == multiset(g.params[x])
  {
    SplitAtSeparator(NUL, f.value, ParamText(f.params, m), g.value, ParamText(g.params, n));
    ParamTextInjective(f.params, m, g.params, n);
  }

  lemma NamesSeparable(f: Field)
    requires Separable(f)
    ensures NUL !in f.value && SeparableParams(f.params, SortedNames(f.params.Keys))
  {
    SortedNamesMembers(f.params.Keys);
  }

  lemma SameKeySameMeaning(f: Field, g: Field)
    requires Separable(f) && Separable(g) && Key(f) == Key(g)
    ensures Meaning(f) == Meaning(g)
  {
    NamesSeparable(f);
    NamesSeparable(g);
    KeyParts(f, g, SortedNames(f.params.Keys), SortedNames(g.params.Keys));
    SortedNamesMembers(f.params.Keys);
    SortedNamesMembers(g.params.Keys);
    assert forall x :: x in f.params.Keys <==> x in f.params;
    MeaningFromParts(f, g, SortedNames(f.params.Keys));
  }

  lemma MeaningFromParts(f: Field, g: Field, names: seq<string>)
    requires f.value == g.value
    requires forall x :: x in names <==> x in f.params
    requires forall x :: x in names <==> x in g.params
    requires forall x | x in names :: multiset(f.params[x]) == multiset(g.params[x])
    ensures Meaning(f) == Meaning(g)
  {
    assert f.params.Keys == g.params.Keys;
    assert Meaning(f).params == Meaning(g).params;
  }

  // The key identifies the content of a separable field.
  lemma KeyIdentifies(f: Field, g: Field)
    requires Separable(f) && Separable(g)
    ensures Key(f) == Key(g) <==> Meaning(f) == Meaning(g)
  {
    if Meaning(f) == Meaning(g) {
      KeyOfMeaning(f, g);
    }
    if Key(f) == Key(g) {
      SameKeySameMeaning(f, g);
    }
  }

  // If two labellings of the elements induce the same equality, equal multisets of one
  // are equal multisets of the other.
  lemma {:induction false} TransferMultiset<X, Y>(xa: seq<X>, xb: seq<X>, ya: seq<Y>, yb: seq<Y>)
    requires |xa| == |ya| && |xb| == |yb|
    requires forall i, j | 0 <= i < |xa| && 0 <= j < |xb| :: xa[i] == xb[j] ==> ya[i] == yb[j]
    requires multiset(xa) == multiset(xb)
    ensures multiset(ya) == multiset(yb)
    decreases |xa|
  {
    if xa == [] {
      assert |multiset(xb)| == 0;
    } else {
      assert xa[0] in multiset(xb);
      var j :| 0 <= j < |xb| && xb[j] == xa[0];
      WithoutMultiset(xa, 0);
      WithoutMultiset(ya, 0);
      WithoutMultiset(xb, j);
      WithoutMultiset(yb, j);
      TransferMultiset(Without(xa, 0), Without(xb, j), Without(ya, 0), Without(yb, j));
    }
  }

  function Without<T>(s: seq<T>, j: nat): (r: seq<T>)
    requires j < |s|
    ensures |r| == |s| - 1
    ensures forall i | 0 <= i < |r| :: r[i] == if i < j then s[i] else s[i + 1]
  {
    s[..j] + s[j + 1..]
  }

  lemma WithoutMultiset<T>(s: seq<T>, j: nat)
    requires j < |s|
    ensures multiset(s) == multiset(Without(s, j)) + multiset{s[j]}
    ensures multiset(Without(s, j)) == multiset(s) - multiset{s[j]}
  {
    assert s == s[..j] + [s[j]] + s[j + 1..];
  }

  // fieldsEqual decides equality of the two groups as multisets of field contents:
  // field order, value order within a parameter and vCard groups are ignored, and
  // nothing else is.
  lemma FieldsEqualIsMultisetEquality(a: seq<Field>, b: seq<Field>)
    requires forall f | f in a :: Separable(f)
    requires forall f | f in b :: Separable(f)
    ensures FieldsEqual(a, b) <==> multiset(Meanings(a)) == multiset(Meanings(b))
  {
    forall i, j | 0 <= i < |a| && 0 <= j < |b|
      ensures Keys(a)[i] == Keys(b)[j] <==> Meanings(a)[i] == Meanings(b)[j]
    {
      assert a[i] in a && b[j] in b;
      KeyIdentifies(a[i], b[j]);
    }
    if FieldsEqual(a, b) {
      TransferMultiset(Keys(a), Keys(b), Meanings(a), Meanings(b));
    }
    if multiset(Meanings(a)) == multiset(Meanings(b)) {
      assert |Meanings(a)| == |multiset(Meanings(a))| == |multiset(Meanings(b))| == |Meanings(b)|;
      TransferMultiset(Meanings(a), Meanings(b), Keys(a), Keys(b));
    }
  }

  // Without separability one direction survives: same content is always equal.
  lemma SameContentIsEqual(a: seq<Field>, b: seq<Field>)
    requires multiset(Meanings(a)) == multiset(Meanings(b))
    ensures FieldsEqual(a, b)
  {
    forall i, j | 0 <= i < |a| && 0 <= j < |b| && Meanings(a)[i] == Meanings(b)[j]
      ensures Keys(a)[i] == Keys(b)[j]
    {
      KeyOfMeaning(a[i], b[j]);
    }
    assert |Meanings(a)| == |multiset(Meanings(a))| == |multiset(Meanings(b))| == |Meanings(b)|;
    TransferMultiset(Meanings(a), Meanings(b), Keys(a), Keys(b));
  }

  // ---- Fields as the decoder delivers them ------------------------------------------

  // Parameter names end before '=', and parameter values are split at commas, quoted or
  // not; ParameterReader shows that every decoded field is like this.
  ghost predicate Decoded(f: Field) {
    forall p | p in f.params :: '=' !in p && forall v | v in f.params[p] :: ',' !in v
  }

  ghost predicate NulFree(f: Field) {
    NUL !in f.value && forall p | p in f.params :: NUL !in p && forall v | v in f.params[p] :: NUL !in v
  }

  predicate Valued(f: Field) {
    forall p | p in f.params :: f.params[p] != []
  }

  lemma DecodedSeparable(f: Field)
    requires Decoded(f)
    ensures Separable(f) <==> NulFree(f) && Valued(f)
  {
  }

  // A parameter without values has the key of one whose only value is empty.
  function FilledParams(params: map<string, seq<string>>): map<string, seq<string>> {
    map p | p in params :: if params[p] == [] then [""] else params[p]
  }

  function Filled(f: Field): Field {
    f.(params := FilledParams(f.params))
  }

  function FilledAll(fields: seq<Field>): (r: seq<Field>)
    ensures |r| == |fields| && forall i | 0 <= i < |fields| :: r[i] == Filled(fields[i])
  {
    seq(|fields|, i requires 0 <= i < |fields| => Filled(fields[i]))
  }

  lemma FilledKey(f: Field)
    ensures Key(Filled(f)) == Key(f)
    ensures Decoded(f) && NulFree(f) ==> Separable(Filled(f))
    ensures Valued(f) ==> Filled(f) == f
  {
    assert SortStrings([""]) == [""] && Join([""]) == Join([]);
    assert FilledParams(f.params).Keys == f.params.Keys;
    SameJoinSameKey(Filled(f), f);
    assert Valued(f) ==> FilledParams(f.params) == f.params;
  }

  // On decoded fields without NUL the key identifies the content up to that one confusion;
  // with no value-less parameter, entirely.
  lemma DecodedKeyExact(f: Field, g: Field)
    requires Decoded(f) && NulFree(f) && Decoded(g) && NulFree(g)
    ensures Key(f) == Key(g) <==> Meaning(Filled(f)) == Meaning(Filled(g))
    ensures Valued(f) && Valued(g) ==> (Key(f) == Key(g) <==> Meaning(f) == Meaning(g))
  {
    FilledKey(f);
    FilledKey(g);
    KeyIdentifies(Filled(f), Filled(g));
  }

  lemma DecodedFieldsEqual(a: seq<Field>, b: seq<Field>)
    requires forall f | f in a :: Decoded(f) && NulFree(f)
    requires forall f | f in b :: Decoded(f) && NulFree(f)
    ensures FieldsEqual(a, b) <==> multiset(Meanings(FilledAll(a))) == multiset(Meanings(FilledAll(b)))
    ensures (forall f | f in a :: Valued(f)) && (forall f | f in b :: Valued(f)) ==>
              (FieldsEqual(a, b) <==> multiset(Meanings(a)) == multiset(Meanings(b)))
  {
    FilledAllKeys(a);
    FilledAllKeys(b);
    FieldsEqualIsMultisetEquality(FilledAll(a), FilledAll(b));
  }

  lemma FilledAllKeys(a: seq<Field>)
    requires forall f | f in a :: Decoded(f) && NulFree(f)
    ensures Keys(FilledAll(a)) == Keys(a)
    ensures forall f | f in FilledAll(a) :: Separable(f)
    ensures (forall f | f in a :: Valued(f)) ==> FilledAll(a) == a
  {
    forall i | 0 <= i < |a|
      ensures Keys(FilledAll(a))[i] == Keys(a)[i]
      ensures Separable(FilledAll(a)[i])
      ensures Valued(a[i]) ==> FilledAll(a)[i] == a[i]
    {
      FilledAt(a, i);
    }
  }

  lemma FilledAt(a: seq<Field>, i: nat)
    requires i < |a| && Decoded(a[i]) && NulFree(a[i])
    ensures Keys(FilledAll(a))[i] == Keys(a)[i]
    ensures Separable(FilledAll(a)[i])
    ensures Valued(a[i]) ==> FilledAll(a)[i] == a[i]
  {
    FilledKey(a[i]);
  }

  // NUL is the separator that does arrive: every field with parameters has the key of a
  // field without any, whose value spells that key out.
  lemma NulCollision(g: Field) returns (f: Field)
    requires g.params != map[]
    ensures f == Field(Key(g), map[], g.group) && Decoded(f)
    ensures Meaning(f) != Meaning(g) && FieldsEqual([f], [g])
    ensures !NulFree(f)
  {
    f := Field(Key(g), map[], g.group);
    BareKey(f);
    assert Keys([f]) == Keys([g]);
    var p :| p in g.params;
    assert p in Meaning(g).params && p !in Meaning(f).params;
    SortedNamesMembers(g.params.Keys);
    var names := SortedNames(g.params.Keys);
    assert p in names;
    assert Key(g) == g.value + (Segment(g.params, names[0]) + ParamText(g.params, names[1..]));
    assert Key(g)[|g.value|] == NUL;
  }

  lemma BareKey(f: Field)
    requires f.params == map[]
    ensures Key(f) == f.value
  {
    SortedNamesMembers(f.params.Keys);
    assert forall x :: x in SortedNames(f.params.Keys) ==> x in f.params.Keys;
    assert f.value + "" == f.value;
  }

  // Value-less parameters arrive as well: `NOTE;TYPE=` and `NOTE;TYPE=:` get the same key.
  lemma ValuelessCollision(f: Field)
    requires !Valued(f)
    ensures FieldsEqual([Filled(f)], [f]) && Meaning(Filled(f)) != Meaning(f)
  {
    FilledKey(f);
    assert Keys([Filled(f)]) == Keys([f]);
    var p :| p in f.params && f.params[p] == [];
    assert |Meaning(f).params[p]| == 0 && |Meaning(Filled(f)).params[p]| == 1;
  }

  lemma SameJoinSameKey(f: Field, g: Field)
    requires f.value == g.value && f.params.Keys == g.params.Keys
    requires forall p | p in f.params :: Join(SortStrings(f.params[p])) == Join(SortStrings(g.params[p]))
    ensures Key(f) == Key(g)
  {
    SortedNamesMembers(f.params.Keys);
    SameJoinSameText(f.params, g.params, SortedNames(f.params.Keys));
  }

  lemma {:induction false} SameJoinSameText(p: map<string, seq<string>>, q: map<string, seq<string>>, names: seq<string>)
    requires forall x | x in names ::
               Join(SortStrings(ParamValues(p, x))) == Join(SortStrings(ParamValues(q, x)))
    ensures ParamText(p, names) == ParamText(q, names)
  {
    if names != [] {
      SameJoinSameText(p, q, names[1..]);
    }
  }
}
