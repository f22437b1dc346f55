/** Schema primitives every wire reader is made of (contracts.py). */
module Wire {
  import opened Common
  import opened JsonValues
  import opened Uuids

  datatype Refusal = NotAnObject | MissingFields | UnknownFields | BadField(field: Field) | BrokenRule

  function Object(j: Json, required: set<Field>, optional: set<Field>): Result<map<Field, Json>, Refusal> {
    if !j.Obj? then Failure(NotAnObject)
    else if !(required <= j.fields.Keys) then Failure(MissingFields)
    else if !(j.fields.Keys <= required + optional) then Failure(UnknownFields)
    else Success(j.fields)
  }

  function Text(f: map<Field, Json>, key: Field, minimum: nat, maximum: nat): Result<string, Refusal>
    requires key in f
  {
    if f[key].Str? && minimum <= |f[key].text| <= maximum then Success(f[key].text) else Failure(BadField(key))
  }

  /** Absent and explicit null mean the same. */
  predicate Missing(f: map<Field, Json>, key: Field) {
    key !in f || f[key].Null?
  }

  function OptionalText(f: map<Field, Json>, key: Field, maximum: nat): Result<Option<string>, Refusal> {
    if Missing(f, key) then Success(None) else
      var s :- Text(f, key, 1, maximum);
      Success(Some(s))
  }

  function Const(f: map<Field, Json>, key: Field, expected: string): Result<(), Refusal>
    requires key in f
  {
    if f[key] == Str(expected) then Success(()) else Failure(BadField(key))
  }

  function Enum(f: map<Field, Json>, key: Field, allowed: seq<string>): Result<string, Refusal>
    requires key in f
  {
    var s :- Text(f, key, 1, 100);
    if s in allowed then Success(s) else Failure(BadField(key))
  }

  function Uuid(f: map<Field, Json>, key: Field): Result<string, Refusal>
    requires key in f
  {
    if f[key].Str? && ParseUuid(f[key].text).Some? then Success(ParseUuid(f[key].text).value)
    else Failure(BadField(key))
  }

  function OptionalUuid(f: map<Field, Json>, key: Field): Result<Option<string>, Refusal> {
    if Missing(f, key) then Success(None) else
      var u :- Uuid(f, key);
      Success(Some(u))
  }

  function Integer(f: map<Field, Json>, key: Field, minimum: Option<int>): Result<int, Refusal>
    requires key in f
  {
    if f[key].Number? && (minimum.Some? ==> minimum.value <= f[key].number) then Success(f[key].number)
    else Failure(BadField(key))
  }

  function Items(f: map<Field, Json>, key: Field, minimum: nat): Result<seq<Json>, Refusal>
    requires key in f
  {
    if f[key].Arr? && minimum <= |f[key].items| then Success(f[key].items) else Failure(BadField(key))
  }

  function Strings(f: map<Field, Json>, key: Field, minimum: nat): Result<seq<string>, Refusal>
    requires key in f
  {
    var items :- Items(f, key, minimum);
    if forall i | 0 <= i < |items| :: items[i].Str? && items[i].text != []
    then Success(seq(|items|, i requires 0 <= i < |items| => items[i].text))
    else Failure(BadField(key))
  }

  function ReadAll<T>(items: seq<Json>, read: Json -> Result<T, Refusal>): Result<seq<T>, Refusal> {
    if items == [] then Success([]) else
      var front :- ReadAll(items[..|items| - 1], read);
      var last :- read(items[|items| - 1]);
      Success(front + [last])
  }

  function WriteAll<T>(xs: seq<T>, write: T -> Json): seq<Json> {
    seq(|xs|, i requires 0 <= i < |xs| => write(xs[i]))
  }

  function WriteStrings(xs: seq<string>): Json {
    Arr(seq(|xs|, i requires 0 <= i < |xs| => Str(xs[i])))
  }

  /** Adds an optional field when it has a value. */
  function With(f: map<Field, Json>, key: Field, value: Option<string>): map<Field, Json> {
    if value.Some? then f[key := Str(value.value)] else f
  }

  /** The receipts' identifier lists: distinct as written, then read one by one. */
  function UuidList(f: map<Field, Json>, key: Field, minimum: nat): Result<seq<string>, Refusal>
    requires key in f
  {
    var items :- Items(f, key, minimum);
    if exists i, j :: 0 <= i < j < |items| && items[i] == items[j] then Failure(BadField(key))
    else if forall i | 0 <= i < |items| :: items[i].Str? && ParseUuid(items[i].text).Some?
    then Success(seq(|items|, i requires 0 <= i < |items| => ParseUuid(items[i].text).value))
    else Failure(BadField(key))
  }

  // --- What a read value looks like, and reading back what was written -----------------------

  /** An identifier in the form it is printed in. */
  predicate Canonical(u: string) {
    ParseUuid(u) == Some(u)
  }

  predicate Within(s: string, minimum: nat, maximum: nat) {
    minimum <= |s| <= maximum
  }

  predicate OptionalWithin(s: Option<string>, maximum: nat) {
    s.Some? ==> Within(s.value, 1, maximum)
  }

  predicate OneOf(s: string, allowed: seq<string>) {
    s in allowed && Within(s, 1, 100)
  }

  predicate NoneEmpty(xs: seq<string>) {
    forall x | x in xs :: x != []
  }

  /** A field holds this optional text, written as null or left out when there is none. */
  predicate HoldsOptional(g: map<Field, Json>, key: Field, value: Option<string>) {
    if value.None? then Missing(g, key) else key in g && g[key] == Str(value.value)
  }

  lemma UuidFits(f: map<Field, Json>, key: Field)
    requires key in f && Uuid(f, key).Success?
    ensures Canonical(Uuid(f, key).value)
  {
    ParseUuidStable(f[key].text, Uuid(f, key).value);
  }

  lemma UuidWritten(g: map<Field, Json>, key: Field, u: string)
    requires key in g && g[key] == Str(u) && Canonical(u)
    ensures Uuid(g, key) == Success(u)
  {
  }

  lemma EnumFits(f: map<Field, Json>, key: Field, allowed: seq<string>)
    requires key in f && Enum(f, key, allowed).Success?
    ensures OneOf(Enum(f, key, allowed).value, allowed)
  {
  }

  lemma EnumWritten(g: map<Field, Json>, key: Field, allowed: seq<string>, s: string)
    requires key in g && g[key] == Str(s) && OneOf(s, allowed)
    ensures Enum(g, key, allowed) == Success(s)
  {
  }

  lemma OptionalFits(f: map<Field, Json>, key: Field, maximum: nat)
    requires OptionalText(f, key, maximum).Success?
    ensures OptionalWithin(OptionalText(f, key, maximum).value, maximum)
  {
  }

  lemma OptionalWritten(g: map<Field, Json>, key: Field, maximum: nat, value: Option<string>)
    requires HoldsOptional(g, key, value) && OptionalWithin(value, maximum)
    ensures OptionalText(g, key, maximum) == Success(value)
  {
  }

  lemma OptionalUuidFits(f: map<Field, Json>, key: Field)
    requires OptionalUuid(f, key).Success?
    ensures OptionalUuid(f, key).value.Some? ==> Canonical(OptionalUuid(f, key).value.value)
  {
    if OptionalUuid(f, key).value.Some? {
      UuidFits(f, key);
    }
  }

  lemma OptionalUuidWritten(g: map<Field, Json>, key: Field, value: Option<string>)
    requires HoldsOptional(g, key, value) && (value.Some? ==> Canonical(value.value))
    ensures OptionalUuid(g, key) == Success(value)
  {
  }

  lemma StringsFit(f: map<Field, Json>, key: Field, minimum: nat)
    requires key in f && Strings(f, key, minimum).Success?
    ensures minimum <= |Strings(f, key, minimum).value| && NoneEmpty(Strings(f, key, minimum).value)
    ensures f[key] == WriteStrings(Strings(f, key, minimum).value)
  {
    var xs := Strings(f, key, minimum).value;
    assert |f[key].items| == |xs| && forall i | 0 <= i < |xs| :: f[key].items[i] == Str(xs[i]);
    assert f[key].items == WriteStrings(xs).items;
  }

  lemma StringsWritten(g: map<Field, Json>, key: Field, minimum: nat, xs: seq<string>)
    requires key in g && g[key] == WriteStrings(xs) && minimum <= |xs| && NoneEmpty(xs)
    ensures Strings(g, key, minimum) == Success(xs)
  {
    forall i | 0 <= i < |xs| ensures g[key].items[i] == Str(xs[i]) && xs[i] != [] {
      assert xs[i] in xs;
    }
    assert Strings(g, key, minimum).value == xs;
  }

  /** What was read element by element, index by index. */
  lemma {:induction false} ReadAllEach<T(!new)>(items: seq<Json>, xs: seq<T>, read: Json -> Result<T, Refusal>)
    requires ReadAll(items, read) == Success(xs)
    ensures |xs| == |items| && forall i | 0 <= i < |xs| :: read(items[i]) == Success(xs[i])
  {
    if items != [] {
      var front, last := items[..|items| - 1], items[|items| - 1];
      var ys, y := ReadAll(front, read).value, read(last).value;
      assert xs == ys + [y];
      ReadAllEach(front, ys, read);
    }
  }

  /** A writer that its reader undoes on each element is undone on the whole array. */
  lemma {:induction false} ReadAllWritten<T(!new)>(xs: seq<T>, read: Json -> Result<T, Refusal>, write: T -> Json)
    requires forall x | x in xs :: read(write(x)) == Success(x)
    ensures ReadAll(WriteAll(xs, write), read) == Success(xs)
  {
    if xs != [] {
      var front, last := xs[..|xs| - 1], xs[|xs| - 1];
      ReadAllWritten(front, read, write);
      var w := WriteAll(xs, write);
      assert w[..|w| - 1] == WriteAll(front, write) && w[|w| - 1] == write(last);
      assert last in xs && xs == front + [last];
    } else {
      assert WriteAll(xs, write) == [];
    }
  }

  /** A reader and a writer that undo each other on everything the reader can produce. */
  ghost predicate Inverse<T(!new)>(read: Json -> Result<T, Refusal>, write: T -> Json) {
    forall j, x :: read(j) == Success(x) ==> read(write(x)) == Success(x)
  }

  lemma ReadAllRoundTrip<T(!new)>(items: seq<Json>, xs: seq<T>, read: Json -> Result<T, Refusal>, write: T -> Json)
    requires ReadAll(items, read) == Success(xs) && Inverse(read, write)
    ensures |xs| == |items| && ReadAll(WriteAll(xs, write), read) == Success(xs)
  {
    ReadAllEach(items, xs, read);
    forall x | x in xs ensures read(write(x)) == Success(x) {
      var i :| 0 <= i < |xs| && xs[i] == x;
      assert read(items[i]) == Success(x);
    }
    ReadAllWritten(xs, read, write);
  }

  lemma UuidListFits(f: map<Field, Json>, key: Field, minimum: nat)
    requires key in f && UuidList(f, key, minimum).Success?
    ensures var us := UuidList(f, key, minimum).value;
            minimum <= |us| && forall u | u in us :: Canonical(u)
  {
    var us, items := UuidList(f, key, minimum).value, f[key].items;
    forall i | 0 <= i < |us| ensures Canonical(us[i]) {
      ParseUuidStable(items[i].text, us[i]);
    }
  }

  lemma UuidListWritten(g: map<Field, Json>, key: Field, minimum: nat, us: seq<string>)
    requires key in g && g[key] == WriteStrings(us) && minimum <= |us|
    requires Distinct(us) && forall u | u in us :: Canonical(u)
    ensures UuidList(g, key, minimum) == Success(us)
  {
    var written := g[key].items;
    forall i | 0 <= i < |us| ensures written[i] == Str(us[i]) && Canonical(us[i]) {
      assert us[i] in us;
    }
    forall i, j | 0 <= i < j < |written| ensures written[i] != written[j] {
      assert us[i] != us[j];
    }
    assert UuidList(g, key, minimum).value == us;
  }

  /** A written identifier list is accepted again exactly when the identifiers, and not
      only their spellings, were distinct. */
  lemma UuidListRead(f: map<Field, Json>, key: Field, minimum: nat, g: map<Field, Json>)
    requires key in f && UuidList(f, key, minimum).Success?
    requires key in g && g[key] == WriteStrings(UuidList(f, key, minimum).value)
    ensures if Distinct(UuidList(f, key, minimum).value)
            then UuidList(g, key, minimum) == Success(UuidList(f, key, minimum).value)
            else UuidList(g, key, minimum).Failure?
  {
    hide UuidList, Canonical;
    var us := UuidList(f, key, minimum).value;
    UuidListFits(f, key, minimum);
    if Distinct(us) {
      UuidListWritten(g, key, minimum, us);
    } else {
      RepeatedRefused(g, key, minimum, us);
    }
  }

  lemma RepeatedRefused(g: map<Field, Json>, key: Field, minimum: nat, us: seq<string>)
    requires key in g && g[key] == WriteStrings(us) && !Distinct(us)
    ensures UuidList(g, key, minimum).Failure?
  {
    var i, j :| 0 <= i < j < |us| && us[i] == us[j];
    assert g[key].items[i] == g[key].items[j];
  }
}
