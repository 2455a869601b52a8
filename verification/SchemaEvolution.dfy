/** Evolving the lake schema towards the source's, and reshaping staged tables to it. */
module SchemaEvolution {
  import opened Prelude
  import opened Digits

  datatype Type = Int | Long | Float | Double | Decimal(precision: nat, scale: nat) | Other(name: string)

  datatype Field = Field(name: string, ftype: Type)

  type Schema = seq<Field>

  /** `b` is `a` or a safe Iceberg promotion of it. */
  predicate Widens(a: Type, b: Type) {
    || a == b
    || (a.Int? && b.Long?)
    || (a.Float? && b.Double?)
    || (a.Decimal? && b.Decimal? && a.scale == b.scale && a.precision <= b.precision)
  }

  function Names(s: Schema): set<string> {
    set f | f in s :: f.name
  }

  ghost predicate UniqueNames(s: Schema) {
    forall i, j :: 0 <= i < j < |s| ==> s[i].name != s[j].name
  }

  function TypeOf(s: Schema, name: string): Option<Type> {
    if s == [] then None
    else if s[0].name == name then Some(s[0].ftype)
    else TypeOf(s[1..], name)
  }

  function Retype(s: Schema, name: string, t: Type): Schema {
    if s == [] then []
    else [if s[0].name == name then Field(name, t) else s[0]] + Retype(s[1..], name, t)
  }

  /** One source field in `union_by_name`; None where it raises. */
  function UnionField(s: Schema, f: Field): Option<Schema> {
    var t := TypeOf(s, f.name);
    if t.None? then Some(s + [f])
    else if Widens(f.ftype, t.value) then Some(s)
    else if Widens(t.value, f.ftype) then Some(Retype(s, f.name, f.ftype))
    else None
  }

  function Union(s: Schema, source: Schema): Option<Schema> {
    if source == [] then Some(s)
    else
      var n := |source| - 1;
      var u := Union(s, source[..n]);
      if u.None? then None else UnionField(u.value, source[n])
  }

  /** A field of the source can join the table's schema. */
  predicate Joins(s: Schema, f: Field) {
    var t := TypeOf(s, f.name);
    t.Some? ==> Widens(f.ftype, t.value) || Widens(t.value, f.ftype)
  }

  /** The promotion order, column by column: nothing lost, nothing narrowed. */
  ghost predicate Grows(a: Schema, b: Schema) {
    forall n :: TypeOf(a, n).Some? ==> TypeOf(b, n).Some? && Widens(TypeOf(a, n).value, TypeOf(b, n).value)
  }

  // ---------------------------------------------------------------- union

  lemma {:induction false} TypeOfAppend(a: Schema, b: Schema, n: string)
    ensures TypeOf(a + b, n) == if TypeOf(a, n).Some? then TypeOf(a, n) else TypeOf(b, n)
  {
    if a == [] {
      assert a + b == b;
    } else {
      assert (a + b)[1..] == a[1..] + b;
      TypeOfAppend(a[1..], b, n);
    }
  }

  lemma {:induction false} TypeOfRetype(s: Schema, name: string, t: Type, n: string)
    ensures TypeOf(Retype(s, name, t), n) == if n == name && TypeOf(s, n).Some? then Some(t) else TypeOf(s, n)
  {
    if s != [] {
      TypeOfRetype(s[1..], name, t, n);
      assert Retype(s, name, t)[1..] == Retype(s[1..], name, t);
    }
  }

  lemma {:induction false} TypeOfMember(s: Schema, n: string)
    ensures TypeOf(s, n).Some? <==> exists f :: f in s && f.name == n
    ensures TypeOf(s, n).Some? ==> Field(n, TypeOf(s, n).value) in s
  {
    if s != [] {
      TypeOfMember(s[1..], n);
      assert s == [s[0]] + s[1..];
      assert s[0] in s;
    }
  }

  lemma WidensTransitive(a: Type, b: Type, c: Type)
    requires Widens(a, b) && Widens(b, c)
    ensures Widens(a, c)
  {}

  /** What one field's union does to every column. */
  lemma UnionFieldTypes(s: Schema, f: Field, n: string)
    requires Joins(s, f)
    ensures UnionField(s, f).Some?
    ensures var u := UnionField(s, f).value;
            && (n != f.name ==> TypeOf(u, n) == TypeOf(s, n))
            && TypeOf(u, f.name).Some? && Widens(f.ftype, TypeOf(u, f.name).value)
            && (TypeOf(s, n).Some? ==> TypeOf(u, n).Some? && Widens(TypeOf(s, n).value, TypeOf(u, n).value))
  {
    assert [f][1..] == [];
    TypeOfAppend(s, [f], n);
    TypeOfAppend(s, [f], f.name);
    TypeOfRetype(s, f.name, f.ftype, n);
    TypeOfRetype(s, f.name, f.ftype, f.name);
  }

  /** MAIN: `union_by_name` succeeds exactly when every source field joins; then the table has
      every source column at a type that widens it, and has lost or narrowed nothing. */
  lemma {:induction false} UnionMeets(s: Schema, source: Schema)
    requires UniqueNames(source)
    ensures Union(s, source).Some? <==> forall f :: f in source ==> Joins(s, f)
    ensures Union(s, source).Some? ==>
              var u := Union(s, source).value;
              && Grows(s, u)
              && (forall f :: f in source ==> TypeOf(u, f.name).Some? && Widens(f.ftype, TypeOf(u, f.name).value))
              && (forall n :: (forall f :: f in source ==> f.name != n) ==> TypeOf(u, n) == TypeOf(s, n))
  {
    if source != [] {
      var n := |source| - 1;
      var init, last := source[..n], source[n];
      assert source == init + [last];
      assert forall f :: f in source <==> f in init || f == last;
      UnionMeets(s, init);
      assert forall f :: f in init ==> f.name != last.name;
      if Union(s, init).Some? {
        UnionSnoc(s, Union(s, init).value, init, last);
      }
    }
  }

  /** The step of the induction: one more field. */
  lemma UnionSnoc(s: Schema, u: Schema, init: Schema, last: Field)
    requires Grows(s, u)
    requires forall f :: f in init ==> TypeOf(u, f.name).Some? && Widens(f.ftype, TypeOf(u, f.name).value)
    requires forall n :: (forall f :: f in init ==> f.name != n) ==> TypeOf(u, n) == TypeOf(s, n)
    requires forall f :: f in init ==> f.name != last.name
    ensures Joins(u, last) <==> Joins(s, last)
    ensures UnionField(u, last).Some? <==> Joins(s, last)
    ensures UnionField(u, last).Some? ==>
              var v := UnionField(u, last).value;
              && Grows(s, v)
              && TypeOf(v, last.name).Some? && Widens(last.ftype, TypeOf(v, last.name).value)
              && (forall n :: n != last.name ==> TypeOf(v, n) == TypeOf(u, n))
  {
    assert TypeOf(u, last.name) == TypeOf(s, last.name);
    if Joins(u, last) {
      var v := UnionField(u, last).value;
      forall n
        ensures n != last.name ==> TypeOf(v, n) == TypeOf(u, n)
        ensures TypeOf(v, last.name).Some? && Widens(last.ftype, TypeOf(v, last.name).value)
        ensures TypeOf(s, n).Some? ==> TypeOf(v, n).Some? && Widens(TypeOf(s, n).value, TypeOf(v, n).value)
      {
        UnionFieldTypes(u, last, n);
        if TypeOf(s, n).Some? {
          WidensTransitive(TypeOf(s, n).value, TypeOf(u, n).value, TypeOf(v, n).value);
        }
      }
    }
  }

  /** MAIN: a union leaves the lake's columns in their places, puts new ones after them, and never
      names a column twice. */
  lemma {:induction false} UnionKeepsPlaces(s: Schema, source: Schema)
    requires UniqueNames(s) && Union(s, source).Some?
    ensures var u := Union(s, source).value;
            UniqueNames(u) && |s| <= |u| && forall i :: 0 <= i < |s| ==> u[i].name == s[i].name
  {
    if source != [] {
      var n := |source| - 1;
      UnionKeepsPlaces(s, source[..n]);
      UnionFieldPlaces(Union(s, source[..n]).value, source[n]);
    }
  }

  lemma UnionFieldPlaces(s: Schema, f: Field)
    requires UniqueNames(s) && UnionField(s, f).Some?
    ensures var u := UnionField(s, f).value;
            UniqueNames(u) && |s| <= |u| && forall i :: 0 <= i < |s| ==> u[i].name == s[i].name
  {
    TypeOfMember(s, f.name);
    RetypePlaces(s, f.name, f.ftype);
  }

  lemma {:induction false} RetypePlaces(s: Schema, name: string, t: Type)
    ensures |Retype(s, name, t)| == |s| && forall i :: 0 <= i < |s| ==> Retype(s, name, t)[i].name == s[i].name
  {
    if s != [] {
      RetypePlaces(s[1..], name, t);
    }
  }

  // ---------------------------------------------------------------- dropping

  /** Lake columns that stay when removed source columns are dropped. */
  function Kept(s: Schema, sourceNames: set<string>, keep: set<string>): Schema {
    if s == [] then []
    else (if s[0].name !in sourceNames && s[0].name !in keep then [] else [s[0]]) + Kept(s[1..], sourceNames, keep)
  }

  lemma {:induction false} TypeOfKept(s: Schema, sourceNames: set<string>, keep: set<string>, n: string)
    ensures TypeOf(Kept(s, sourceNames, keep), n) == if n in sourceNames || n in keep then TypeOf(s, n) else None
  {
    if s != [] {
      TypeOfKept(s[1..], sourceNames, keep, n);
      var rest := Kept(s[1..], sourceNames, keep);
      assert [] + rest == rest && ([s[0]] + rest)[1..] == rest;
    }
  }

  /** MAIN: a drop decides column by column and keeps their order: of one column what its name says,
      of two lists one after the other. */
  lemma {:induction false} KeptInOrder(a: Schema, b: Schema, sourceNames: set<string>, keep: set<string>)
    ensures Kept(a + b, sourceNames, keep) == Kept(a, sourceNames, keep) + Kept(b, sourceNames, keep)
    ensures |a| == 1 ==> Kept(a, sourceNames, keep) == if a[0].name in sourceNames || a[0].name in keep then a else []
  {
    if a == [] {
      assert a + b == b && [] + Kept(b, sourceNames, keep) == Kept(b, sourceNames, keep);
    } else {
      assert (a + b)[1..] == a[1..] + b;
      KeptInOrder(a[1..], b, sourceNames, keep);
      var head := if a[0].name !in sourceNames && a[0].name !in keep then [] else [a[0]];
      assert head + (Kept(a[1..], sourceNames, keep) + Kept(b, sourceNames, keep)) ==
             (head + Kept(a[1..], sourceNames, keep)) + Kept(b, sourceNames, keep);
      if |a| == 1 {
        assert a[1..] == [] && a == [a[0]];
      }
    }
  }

  /** What `evolve_table_schema` leaves: an incompatible field aborts the whole union; dropping,
      when switched on and not refused by the catalog, happens either way. */
  function Evolved(s: Schema, source: Schema, dropping: bool, keep: set<string>): Schema {
    var u := Union(s, source);
    var merged := if u.Some? then u.value else s;
    if dropping then Kept(merged, Names(source), keep) else merged
  }

  /** The catalog's schema of one table; `partSources` are its partition source columns. */
  class TableSchema {
    var fields: Schema
    const partSources: set<string>

    constructor (fields: Schema, partSources: set<string>)
      ensures this.fields == fields && this.partSources == partSources
    {
      this.fields, this.partSources := fields, partSources;
    }

    /** `union_by_name` inside one schema update: all or nothing. */
    method UnionByName(source: Schema) returns (ok: bool)
      modifies this
      ensures ok == Union(old(fields), source).Some?
      ensures fields == if ok then Union(old(fields), source).value else old(fields)
    {
      var working := fields;
      for i := 0 to |source|
        invariant fields == old(fields)
        invariant Union(fields, source[..i]) == Some(working)
      {
        assert source[..i + 1][..i] == source[..i];
        var next := UnionField(working, source[i]);
        if next.None? {
          UnionStaysFailed(fields, source, i + 1);
          return false;
        }
        working := next.value;
      }
      assert source[..|source|] == source;
      fields := working;
      return true;
    }

    /** Best effort: a refused schema update leaves the columns as they are. */
    method DropRemovedColumns(source: Schema, protectedColumns: set<string>, refused: bool)
      modifies this
      ensures fields == if refused then old(fields) else Kept(old(fields), Names(source), protectedColumns + partSources)
    {
      if !refused {
        fields := Kept(fields, Names(source), protectedColumns + partSources);
      }
    }

    method EvolveTableSchema(source: Schema, settingOn: bool, refused: bool, protectedColumns: set<string>)
      modifies this
      ensures fields == Evolved(old(fields), source, settingOn && !refused, protectedColumns + partSources)
    {
      var ok := UnionByName(source);
      if settingOn {
        DropRemovedColumns(source, protectedColumns, refused);
      }
    }
  }

  lemma {:induction false} UnionStaysFailed(s: Schema, source: Schema, i: nat)
    requires i <= |source| && Union(s, source[..i]).None?
    ensures Union(s, source).None?
    decreases |source| - i
  {
    if i == |source| {
      assert source[..i] == source;
    } else {
      assert source[..i + 1][..i] == source[..i];
      UnionStaysFailed(s, source, i + 1);
    }
  }

  // ---------------------------------------------------------------- any sequence of source schemas

  /** One sync: the source's schema at that time, and whether columns get dropped. */
  datatype Sync = Sync(source: Schema, dropping: bool)

  function EvolvedAll(s: Schema, syncs: seq<Sync>, keep: set<string>): Schema {
    if syncs == [] then s
    else
      var last := syncs[|syncs| - 1];
      Evolved(EvolvedAll(s, syncs[..|syncs| - 1], keep), last.source, last.dropping, keep)
  }

  /** MAIN: through any sequence of syncs a column stays in the lake, and its type only moves up
      the promotion order, if it is protected or if every sync that drops still has it. */
  lemma {:induction false} LakeOnlyGrows(s: Schema, syncs: seq<Sync>, keep: set<string>, n: string)
    requires forall x :: x in syncs ==> UniqueNames(x.source)
    requires forall x :: x in syncs ==> x.dropping ==> n in keep || n in Names(x.source)
    requires TypeOf(s, n).Some?
    ensures var t := TypeOf(EvolvedAll(s, syncs, keep), n);
            t.Some? && Widens(TypeOf(s, n).value, t.value)
  {
    if syncs != [] {
      var k := |syncs| - 1;
      assert forall x :: x in syncs[..k] ==> x in syncs;
      LakeOnlyGrows(s, syncs[..k], keep, n);
      var before, last := EvolvedAll(s, syncs[..k], keep), syncs[k];
      assert last in syncs;
      UnionMeets(before, last.source);
      var u := Union(before, last.source);
      var merged := if u.Some? then u.value else before;
      TypeOfKept(merged, Names(last.source), keep, n);
      WidensTransitive(TypeOf(s, n).value, TypeOf(before, n).value, TypeOf(merged, n).value);
    }
  }

  /** MAIN: and a drop takes exactly the rest: after a sync that drops, a lake column without
      protection is there only if the source has it. */
  lemma DropsExactly(s: Schema, source: Schema, keep: set<string>, n: string)
    requires UniqueNames(source) && TypeOf(s, n).Some?
    ensures TypeOf(Evolved(s, source, true, keep), n).Some? <==> n in keep || n in Names(source)
  {
    UnionMeets(s, source);
    var u := Union(s, source);
    TypeOfKept(if u.Some? then u.value else s, Names(source), keep, n);
  }

  // ---------------------------------------------------------------- alignment

  /** A staged Arrow table: numbers stand for cell contents (unscaled for decimals). */
  datatype Staged = Staged(schema: Schema, columns: map<string, seq<Option<int>>>, rows: nat)

  ghost predicate WellFormed(t: Staged) {
    && (forall n :: n in t.columns <==> TypeOf(t.schema, n).Some?)
    && (forall n :: n in t.columns ==> |t.columns[n]| == t.rows)
    && (forall n, i :: n in t.columns && 0 <= i < t.rows && t.columns[n][i].Some? ==>
                         Fits(t.columns[n][i].value, TypeOf(t.schema, n).value))
  }

  /** The values a type can hold. */
  predicate Fits(v: int, t: Type) {
    match t
    case Int => -0x8000_0000 <= v < 0x8000_0000
    case Long => -0x8000_0000_0000_0000 <= v < 0x8000_0000_0000_0000
    case Decimal(p, _) => var limit: int := Pow10(p); -limit < v < limit
    case _ => true
  }

  /** How Arrow converts between types where neither promotes to the other, or narrows. */
  type Conversion = (seq<Option<int>>, Type, Type) -> seq<Option<int>>

  predicate AllFit(col: seq<Option<int>>, t: Type) {
    forall i :: 0 <= i < |col| && col[i].Some? ==> Fits(col[i].value, t)
  }

  /** `cast`: along a promotion the numbers stay, provided they fit; otherwise as Arrow converts. */
  function Cast(col: seq<Option<int>>, from: Type, to: Type, convert: Conversion): seq<Option<int>> {
    if Widens(from, to) && AllFit(col, to) then col else convert(col, from, to)
  }

  function Nulls(n: nat): seq<Option<int>> {
    seq(n, i => None)
  }

  function AlignedColumn(t: Staged, f: Field, convert: Conversion): seq<Option<int>> {
    var have := TypeOf(t.schema, f.name);
    if have.Some? && f.name in t.columns then
      if have.value == f.ftype then t.columns[f.name] else Cast(t.columns[f.name], have.value, f.ftype, convert)
    else Nulls(t.rows)
  }

  /** `align_to_table`: one array per column of the table, in its order. */
  method AlignToTable(t: Staged, target: Schema, convert: Conversion) returns (arrays: seq<seq<Option<int>>>)
    ensures |arrays| == |target|
    ensures forall i :: 0 <= i < |target| ==> arrays[i] == AlignedColumn(t, target[i], convert)
  {
    arrays := [];
    for i := 0 to |target|
      invariant |arrays| == i
      invariant forall j :: 0 <= j < i ==> arrays[j] == AlignedColumn(t, target[j], convert)
    {
      var f := target[i];
      var have := TypeOf(t.schema, f.name);
      if have.Some? && f.name in t.columns {
        var col := t.columns[f.name];
        if have.value != f.ftype {
          col := Cast(col, have.value, f.ftype, convert);
        }
        arrays := arrays + [col];
      } else {
        arrays := arrays + [Nulls(t.rows)];
      }
    }
  }

  lemma {:induction false} Pow10Grows(a: nat, b: nat)
    requires a <= b
    ensures Pow10(a) <= Pow10(b)
  {
    if a < b {
      Pow10Grows(a, b - 1);
    }
  }

  lemma PromotionFits(v: int, a: Type, b: Type)
    requires Widens(a, b) && Fits(v, a)
    ensures Fits(v, b)
  {
    if a.Decimal? {
      Pow10Grows(a.precision, b.precision);
    }
  }

  /** MAIN: among types that hold numbers exactly, a promotion is what keeps every value: within
      int and long, and within decimals of one scale. */
  lemma PromotionIsInclusion(a: Type, b: Type)
    requires ((a.Int? || a.Long?) && (b.Int? || b.Long?)) || (a.Decimal? && b.Decimal? && a.scale == b.scale)
    ensures Widens(a, b) <==> forall v :: Fits(v, a) ==> Fits(v, b)
  {
    if a.Decimal? {
      if a.precision <= b.precision {
        Pow10Grows(a.precision, b.precision);
      } else {
        Pow10Strict(b.precision, a.precision);
        assert Fits(Pow10(b.precision), a) && !Fits(Pow10(b.precision), b);
      }
    } else {
      assert Fits(0x8000_0000, Long) && !Fits(0x8000_0000, Int);
    }
  }

  /** Other promotions there are none, but float to double. */
  lemma NoOtherPromotion(a: Type, b: Type)
    requires a != b && Widens(a, b)
    ensures (a == Int && b == Long) || (a == Float && b == Double) || (a.Decimal? && b.Decimal? && a.scale == b.scale && a.precision < b.precision)
  {}

  lemma {:induction false} Pow10Strict(a: nat, b: nat)
    requires a < b
    ensures 0 < Pow10(a) < Pow10(b)
  {
    if a > 0 {
      Pow10Strict(a - 1, b - 1);
    } else {
      Pow10Grows(0, b - 1);
    }
  }

  /** MAIN: what a staged column becomes: NULLs when it is missing, itself at the same type or along a
      promotion, otherwise whatever the conversion makes of it. */
  lemma AlignCases(t: Staged, f: Field, convert: Conversion)
    requires WellFormed(t)
    ensures var col := AlignedColumn(t, f, convert);
            && (f.name !in t.columns ==> |col| == t.rows && forall i :: 0 <= i < t.rows ==> col[i] == None)
            && (f.name in t.columns && Widens(TypeOf(t.schema, f.name).value, f.ftype) ==> col == t.columns[f.name])
            && (f.name in t.columns && !Widens(TypeOf(t.schema, f.name).value, f.ftype) ==>
                  col == convert(t.columns[f.name], TypeOf(t.schema, f.name).value, f.ftype))
  {
    if f.name in t.columns && Widens(TypeOf(t.schema, f.name).value, f.ftype) {
      AlignKeepsValues(t, f, convert);
    }
  }

  /** A shared column whose lake type widens the source's keeps every value. */
  lemma AlignKeepsValues(t: Staged, f: Field, convert: Conversion)
    requires WellFormed(t) && f.name in t.columns
    requires Widens(TypeOf(t.schema, f.name).value, f.ftype)
    ensures AlignedColumn(t, f, convert) == t.columns[f.name]
  {
    var col := t.columns[f.name];
    forall i | 0 <= i < |col| && col[i].Some?
      ensures Fits(col[i].value, f.ftype)
    {
      PromotionFits(col[i].value, TypeOf(t.schema, f.name).value, f.ftype);
    }
  }

  /** Every source column has its place in the table at a type that widens it. */
  ghost predicate Carries(table: Schema, source: Schema) {
    forall f :: f in source ==> TypeOf(table, f.name).Some? && Widens(f.ftype, TypeOf(table, f.name).value)
  }

  /** MAIN: after an evolve the table can carry the source exactly when no source column clashes
      with the lake's type of that name. */
  lemma CarriesExactly(s: Schema, source: Schema, dropping: bool, keep: set<string>)
    requires UniqueNames(source)
    ensures Carries(Evolved(s, source, dropping, keep), source) <==> forall f :: f in source ==> Joins(s, f)
  {
    UnionMeets(s, source);
    var u := Union(s, source);
    var merged := if u.Some? then u.value else s;
    forall f | f in source
      ensures TypeOf(Evolved(s, source, dropping, keep), f.name) == TypeOf(merged, f.name)
    {
      assert f.name in Names(source);
      TypeOfKept(merged, Names(source), keep, f.name);
    }
    if u.None? {
      var f :| f in source && !Joins(s, f);
      assert TypeOf(merged, f.name).Some? && !Widens(f.ftype, TypeOf(merged, f.name).value);
    }
  }

  /** The wider of the lake's type, if the lake has the column, and the source's. */
  function Joined(t: Option<Type>, f: Type): Type {
    if t.Some? && Widens(f, t.value) then t.value else f
  }

  lemma {:induction false} UnionJoins(s: Schema, source: Schema, f: Field)
    requires UniqueNames(source) && f in source && Union(s, source).Some?
    ensures TypeOf(Union(s, source).value, f.name) == Some(Joined(TypeOf(s, f.name), f.ftype))
  {
    var n := |source| - 1;
    var init, last := source[..n], source[n];
    assert source == init + [last];
    var u := Union(s, init).value;
    UnionMeets(s, init);
    assert forall g :: g in init ==> g.name != last.name;
    if f == last {
      assert [f][1..] == [];
      TypeOfAppend(u, [f], f.name);
      TypeOfRetype(u, f.name, f.ftype, f.name);
    } else {
      UnionJoins(s, init, f);
      TypeOfAppend(u, [last], f.name);
      TypeOfRetype(u, last.name, last.ftype, f.name);
      assert [last][1..] == [];
    }
  }

  /** MAIN: an evolve is all or nothing. Without a clash every source column has the wider of the
      two types; one clash, on whatever column, leaves every column's type as it was. So a new
      column arrives, and a promotion happens, exactly when no column clashes. */
  lemma OneClashKeepsAllOut(s: Schema, source: Schema, dropping: bool, keep: set<string>, f: Field)
    requires UniqueNames(source) && f in source
    ensures var after := TypeOf(Evolved(s, source, dropping, keep), f.name);
            && after == (if forall g :: g in source ==> Joins(s, g) then Some(Joined(TypeOf(s, f.name), f.ftype)) else TypeOf(s, f.name))
            && (TypeOf(s, f.name).None? ==>
                  (after.Some? <==> forall g :: g in source ==> Joins(s, g)))
            && (TypeOf(s, f.name).Some? && TypeOf(s, f.name).value != f.ftype && Widens(TypeOf(s, f.name).value, f.ftype) ==>
                  (after == Some(f.ftype) <==> forall g :: g in source ==> Joins(s, g)))
  {
    UnionMeets(s, source);
    var u := Union(s, source);
    assert f.name in Names(source);
    TypeOfKept(if u.Some? then u.value else s, Names(source), keep, f.name);
    if u.Some? {
      UnionJoins(s, source, f);
    }
  }

  /** `union_by_name` at one clash (a string column that became an integer) beside one new
      column: the new column stays out, and without the clash it would have come. */
  lemma ClashBesideNewColumn()
    ensures var lake := [Field("id", Long), Field("code", Other("string"))];
            var source := [Field("id", Long), Field("code", Int), Field("added", Long)];
            && TypeOf(Evolved(lake, source, false, {}), "added").None?
            && TypeOf(Evolved(lake, [source[0], source[2]], false, {}), "added") == Some(Long)
  {
    var lake := [Field("id", Long), Field("code", Other("string"))];
    var source := [Field("id", Long), Field("code", Int), Field("added", Long)];
    assert lake[1..][0].name == "code" && !Joins(lake, source[1]);
    OneClashKeepsAllOut(lake, source, false, {}, source[2]);
    OneClashKeepsAllOut(lake, [source[0], source[2]], false, {}, source[2]);
  }

  /** MAIN: evolve, then align: without a clash every staged column arrives in the lake's shape
      with all its values, and a lake column the source lacks reads NULL. */
  lemma EvolveThenAlign(s: Schema, t: Staged, dropping: bool, keep: set<string>, convert: Conversion, f: Field)
    requires UniqueNames(t.schema) && WellFormed(t)
    requires forall g :: g in t.schema ==> Joins(s, g)
    requires var table := Evolved(s, t.schema, dropping, keep);
             TypeOf(table, f.name) == Some(f.ftype)
    ensures AlignedColumn(t, f, convert) == if f.name in t.columns then t.columns[f.name] else Nulls(t.rows)
  {
    CarriesExactly(s, t.schema, dropping, keep);
    if f.name in t.columns {
      TypeOfMember(t.schema, f.name);
      AlignKeepsValues(t, f, convert);
    }
  }
}
