/** The refinement parameter store: `Parameters`, an insertion-ordered
    dictionary from names to `Parameter` records (value, bounds, vary flag),
    together with the LeBail operations that sweep the vary flags, hand the
    varying parameters to the least-squares solver and copy solved values
    back. */
module ParameterStore {
  import opened Wrappers

  /** A bound: a real number or one of numpy's infinities. */
  datatype Bound = NegInf | PosInf | Finite(x: real)

  datatype Parameter = Parameter(name: string, vary: bool, value: real, lb: Bound, ub: Bound)

  /** What `__setitem__` may be handed: a Parameter, or anything else. */
  datatype Item = ParameterItem(p: Parameter) | NotAParameter

  /** One entry of the solver's parameter set (lmfit's name, value, min, max). */
  datatype SolverParameter = SolverParameter(name: string, value: real, min: Bound, max: Bound)

  // ---------------------------------------------------------------------
  // The store as a value
  // ---------------------------------------------------------------------

  /** Dictionary contents: the keys in insertion order and the entries. */
  datatype Store = Store(order: seq<string>, entries: map<string, Parameter>)

  ghost predicate Distinct(s: seq<string>) {
    forall i, j :: 0 <= i < j < |s| ==> s[i] != s[j]
  }

  /** Every key appears once in the order, and the order lists exactly the keys. */
  ghost predicate WellFormed(st: Store) {
    Distinct(st.order) && forall k :: k in st.entries <==> k in st.order
  }

  const Empty := Store([], map[])

  /** `param_dict[key] = p`: a new key goes to the end; an existing key keeps
      its place and is overwritten. */
  function Put(st: Store, key: string, p: Parameter): Store {
    Store(if key in st.entries then st.order else st.order + [key], st.entries[key := p])
  }

  /** `__getitem__`. */
  function Lookup(st: Store, key: string): (r: Result<Parameter>)
    ensures r.Failure? <==> key !in st.entries
  {
    if key in st.entries then Success(st.entries[key]) else Failure("variable with name not found")
  }

  /** Storing a parameter makes it the entry under its key and changes no
      other entry; the store stays well formed and an overwrite leaves the
      key order alone. */
  lemma PutSpec(st: Store, key: string, p: Parameter)
    requires WellFormed(st)
    ensures WellFormed(Put(st, key, p))
    ensures Lookup(Put(st, key, p), key) == Success(p)
    ensures forall k :: k != key ==> Lookup(Put(st, key, p), k) == Lookup(st, k)
    ensures key in st.entries ==> Put(st, key, p).order == st.order
    ensures key !in st.entries ==> Put(st, key, p).order == st.order + [key]
  {
    var r := Put(st, key, p);
    if key !in st.entries {
      forall i, j | 0 <= i < j < |r.order| ensures r.order[i] != r.order[j] {
        if j == |st.order| {
          assert r.order[i] == st.order[i];
        }
      }
    }
  }

  /** The record `add` builds for one name. */
  function NewParameter(name: string, vary: bool, value: real, lb: Bound, ub: Bound): Parameter {
    Parameter(name, vary, value, lb, ub)
  }

  predicate SameLengths<A, B, C, D, E>(names: seq<A>, varies: seq<B>, values: seq<C>, lbs: seq<D>, ubs: seq<E>) {
    |names| == |varies| && |names| == |values| && |names| == |lbs| && |names| == |ubs|
  }

  /** The store after `add` has run for the first n names of `add_many`. */
  function AddFirst(st: Store, names: seq<string>, varies: seq<bool>, values: seq<real>,
                    lbs: seq<Bound>, ubs: seq<Bound>, n: nat): Store
    requires SameLengths(names, varies, values, lbs, ubs) && n <= |names|
  {
    if n == 0 then st
    else
      var prev := AddFirst(st, names, varies, values, lbs, ubs, n - 1);
      Put(prev, names[n - 1], NewParameter(names[n - 1], varies[n - 1], values[n - 1], lbs[n - 1], ubs[n - 1]))
  }

  /** `add_many` keeps the store well formed and leaves unlisted names alone. */
  lemma {:induction false} AddFirstKeeps(st: Store, names: seq<string>, varies: seq<bool>, values: seq<real>,
                                        lbs: seq<Bound>, ubs: seq<Bound>, n: nat)
    requires WellFormed(st)
    requires SameLengths(names, varies, values, lbs, ubs) && n <= |names|
    ensures WellFormed(AddFirst(st, names, varies, values, lbs, ubs, n))
    ensures forall k :: k !in names[..n] ==> Lookup(AddFirst(st, names, varies, values, lbs, ubs, n), k) == Lookup(st, k)
  {
    if n > 0 {
      AddFirstKeeps(st, names, varies, values, lbs, ubs, n - 1);
      var prev := AddFirst(st, names, varies, values, lbs, ubs, n - 1);
      PutSpec(prev, names[n - 1], NewParameter(names[n - 1], varies[n - 1], values[n - 1], lbs[n - 1], ubs[n - 1]));
      assert names[..n] == names[..n - 1] + [names[n - 1]];
    }
  }

  /** After `add_many` each listed name holds the record built from its last
      position in the lists. */
  lemma {:induction false} AddFirstLastWins(st: Store, names: seq<string>, varies: seq<bool>, values: seq<real>,
                                           lbs: seq<Bound>, ubs: seq<Bound>, n: nat, i: nat)
    requires SameLengths(names, varies, values, lbs, ubs) && i < n <= |names|
    requires names[i] !in names[i + 1..n]
    ensures Lookup(AddFirst(st, names, varies, values, lbs, ubs, n), names[i])
              == Success(NewParameter(names[i], varies[i], values[i], lbs[i], ubs[i]))
  {
    if i < n - 1 {
      assert names[n - 1] in names[i + 1..n];
      assert names[i + 1..n - 1] == names[i + 1..n][..n - 1 - (i + 1)];
      AddFirstLastWins(st, names, varies, values, lbs, ubs, n - 1, i);
    }
  }

  /** `params_vary_on` / `params_vary_off`: every entry's flag set to `flag`. */
  function WithVary(st: Store, flag: bool): Store {
    Store(st.order, map k | k in st.entries :: st.entries[k].(vary := flag))
  }

  /** The solver entry for one key, if that parameter varies. */
  function ExportEntry(st: Store, key: string): seq<SolverParameter> {
    if key in st.entries && st.entries[key].vary then
      var p := st.entries[key];
      [SolverParameter(key, p.value, p.lb, p.ub)]
    else []
  }

  /** `initialize_lmfit_parameters` over the given keys, in order. */
  function ExportKeys(st: Store, keys: seq<string>): seq<SolverParameter> {
    if keys == [] then []
    else ExportKeys(st, keys[..|keys| - 1]) + ExportEntry(st, keys[|keys| - 1])
  }

  function Export(st: Store): seq<SolverParameter> {
    ExportKeys(st, st.order)
  }

  /** The solver receives exactly the varying parameters, each once, with
      their current value and bounds. */
  lemma {:induction false} ExportKeysSpec(st: Store, keys: seq<string>)
    requires forall k :: k in keys ==> k in st.entries
    requires Distinct(keys)
    ensures forall e :: e in ExportKeys(st, keys) ==>
      e.name in keys && st.entries[e.name].vary &&
      e == SolverParameter(e.name, st.entries[e.name].value, st.entries[e.name].lb, st.entries[e.name].ub)
    ensures forall k :: k in keys && st.entries[k].vary ==> exists e :: e in ExportKeys(st, keys) && e.name == k
    ensures forall i, j :: 0 <= i < j < |ExportKeys(st, keys)| ==> ExportKeys(st, keys)[i].name != ExportKeys(st, keys)[j].name
  {
    if keys != [] {
      var init := keys[..|keys| - 1];
      var last := keys[|keys| - 1];
      assert keys == init + [last];
      assert Distinct(init);
      ExportKeysSpec(st, init);
      assert last !in init;
      var ex := ExportKeys(st, keys);
      var prev := ExportKeys(st, init);
      forall i, j | 0 <= i < j < |ex| ensures ex[i].name != ex[j].name {
        if j >= |prev| {
          assert ex[j].name == last;
          assert ex[i] in prev;
        }
      }
    }
  }

  /** With every flag off nothing is exported; with every flag on, every
      parameter is, in store order. */
  lemma {:induction false} ExportSweeps(st: Store, keys: seq<string>)
    requires forall k :: k in keys ==> k in st.entries
    ensures ExportKeys(WithVary(st, false), keys) == []
    ensures |ExportKeys(WithVary(st, true), keys)| == |keys|
    ensures forall i :: 0 <= i < |keys| ==> ExportKeys(WithVary(st, true), keys)[i].name == keys[i]
  {
    if keys != [] {
      ExportSweeps(st, keys[..|keys| - 1]);
    }
  }

  /** Progress of `update_parameters`: the store so far and whether a lookup
      has failed. */
  datatype Progress = Progress(store: Store, outcome: Outcome)

  /** `update_parameters` over the first n solved entries: each name is
      looked up (raising on an unknown one) and its value replaced. An error
      stops the loop; earlier writes stay. */
  function UpdateFirst(st: Store, solved: seq<SolverParameter>, n: nat): Progress
    requires n <= |solved|
  {
    if n == 0 then Progress(st, Pass)
    else
      var prev := UpdateFirst(st, solved, n - 1);
      var e := solved[n - 1];
      if prev.outcome.Fail? then prev
      else if e.name in prev.store.entries then
        Progress(Store(prev.store.order, prev.store.entries[e.name := prev.store.entries[e.name].(value := e.value)]), Pass)
      else Progress(prev.store, Fail("variable with name not found"))
  }

  function Update(st: Store, solved: seq<SolverParameter>): Progress {
    UpdateFirst(st, solved, |solved|)
  }

  /** Writing back only touches values: the key order, the key set and every
      name, bound and vary flag are unchanged; the update fails exactly when
      a solved name is not in the store. */
  lemma {:induction false} UpdateFirstSpec(st: Store, solved: seq<SolverParameter>, n: nat)
    requires n <= |solved|
    ensures UpdateFirst(st, solved, n).store.order == st.order
    ensures UpdateFirst(st, solved, n).store.entries.Keys == st.entries.Keys
    ensures forall k :: k in st.entries ==>
      UpdateFirst(st, solved, n).store.entries[k] == st.entries[k].(value := UpdateFirst(st, solved, n).store.entries[k].value)
    ensures UpdateFirst(st, solved, n).outcome.Pass? <==> forall i :: 0 <= i < n ==> solved[i].name in st.entries
  {
    if n > 0 {
      UpdateFirstSpec(st, solved, n - 1);
    }
  }

  /** A successful update leaves each solved name holding the value of its
      last entry in the solved list. */
  lemma {:induction false} UpdateWrites(st: Store, solved: seq<SolverParameter>, n: nat, i: nat)
    requires i < n <= |solved|
    requires UpdateFirst(st, solved, n).outcome.Pass?
    requires forall m :: i < m < n ==> solved[m].name != solved[i].name
    ensures solved[i].name in UpdateFirst(st, solved, n).store.entries
    ensures UpdateFirst(st, solved, n).store.entries[solved[i].name].value == solved[i].value
  {
    if i < n - 1 {
      UpdateWrites(st, solved, n - 1, i);
    }
  }

  /** Exporting and immediately writing the same values back changes nothing. */
  lemma {:induction false} UpdateExportedKeys(st: Store, keys: seq<string>)
    requires forall k :: k in keys ==> k in st.entries
    ensures Update(st, ExportKeys(st, keys)) == Progress(st, Pass)
  {
    if keys != [] {
      var init := keys[..|keys| - 1];
      var last := keys[|keys| - 1];
      UpdateExportedKeys(st, init);
      var ex := ExportKeys(st, keys);
      var prev := ExportKeys(st, init);
      UpdatePrefix(st, ex, |prev|);
      assert ex[..|prev|] == prev;
      if ExportEntry(st, last) != [] {
        assert ex[|prev|].name == last;
        assert st.entries[last := st.entries[last].(value := st.entries[last].value)] == st.entries;
      }
    }
  }

  /** Updating along a prefix of the list is updating with the prefix. */
  lemma {:induction false} UpdatePrefix(st: Store, solved: seq<SolverParameter>, n: nat)
    requires n <= |solved|
    ensures UpdateFirst(st, solved, n) == Update(st, solved[..n])
  {
    UpdateFirstSamePrefix(st, solved, solved[..n], n);
  }

  lemma {:induction false} UpdateFirstSamePrefix(st: Store, a: seq<SolverParameter>, b: seq<SolverParameter>, n: nat)
    requires n <= |a| && n <= |b| && a[..n] == b[..n]
    ensures UpdateFirst(st, a, n) == UpdateFirst(st, b, n)
  {
    if n > 0 {
      assert a[..n - 1] == b[..n - 1];
      assert a[n - 1] == a[..n][n - 1] == b[..n][n - 1] == b[n - 1];
      UpdateFirstSamePrefix(st, a, b, n - 1);
    }
  }

  lemma ExportRoundTrip(st: Store)
    requires WellFormed(st)
    ensures Update(st, Export(st)) == Progress(st, Pass)
  {
    UpdateExportedKeys(st, st.order);
  }

  // ---------------------------------------------------------------------
  // The store as an object
  // ---------------------------------------------------------------------

  class Parameters {
    /** `param_dict`: its keys in insertion order, and its entries. */
    var order: seq<string>
    var entries: map<string, Parameter>
    /** `self.n`, the position of the key iterator. */
    var cursor: nat

    function Contents(): Store
      reads this
    {
      Store(order, entries)
    }

    ghost predicate Valid()
      reads this
    {
      WellFormed(Contents())
    }

    /** `Parameters()`: an empty store. */
    constructor()
      ensures Valid() && Contents() == Empty && cursor == 0
    {
      order := [];
      entries := map[];
      cursor := 0;
    }

    /** `__getitem__`: the entry, or an error for an unknown name. */
    function Get(key: string): (r: Result<Parameter>)
      reads this
      ensures r.Failure? <==> key !in entries
      ensures r.Success? ==> r.value == entries[key]
    {
      Lookup(Contents(), key)
    }

    /** `__setitem__`: warns when the key exists; stores a Parameter, refuses
      anything else without changing the store. */
    method SetItem(key: string, item: Item) returns (warned: bool, out: Outcome)
      requires Valid()
      modifies this
      ensures Valid()
      ensures warned <==> key in old(entries)
      ensures item.NotAParameter? ==> out.Fail? && Contents() == old(Contents())
      ensures item.ParameterItem? ==> out == Pass && Contents() == Put(old(Contents()), key, item.p)
      ensures cursor == old(cursor)
    {
      warned := key in entries;
      if item.NotAParameter? {
        return warned, Fail("input not a Parameter class");
      }
      PutSpec(Contents(), key, item.p);
      if key !in entries {
        order := order + [key];
      }
      entries := entries[key := item.p];
      out := Pass;
    }

    /** `add`: build the record and store it under its name. */
    method Add(name: string, vary: bool, value: real, lb: Bound, ub: Bound) returns (warned: bool)
      requires Valid()
      modifies this
      ensures Valid()
      ensures warned <==> name in old(entries)
      ensures Contents() == Put(old(Contents()), name, NewParameter(name, vary, value, lb, ub))
      ensures cursor == old(cursor)
    {
      var out;
      warned, out := SetItem(name, ParameterItem(NewParameter(name, vary, value, lb, ub)));
    }

    /** `add_many`: all five lists must have the same length; then `add` for
      each position in turn. */
    method AddMany(names: seq<string>, varies: seq<bool>, values: seq<real>, lbs: seq<Bound>, ubs: seq<Bound>)
      returns (out: Outcome)
      requires Valid()
      modifies this
      ensures Valid()
      ensures out.Fail? <==> !SameLengths(names, varies, values, lbs, ubs)
      ensures out.Fail? ==> Contents() == old(Contents())
      ensures out.Pass? ==>
        SameLengths(names, varies, values, lbs, ubs) &&
        Contents() == AddFirst(old(Contents()), names, varies, values, lbs, ubs, |names|)
      ensures cursor == old(cursor)
    {
      if !SameLengths(names, varies, values, lbs, ubs) {
        return Fail("lengths of tuples not consistent");
      }
      var i := 0;
      while i < |names|
        invariant 0 <= i <= |names|
        invariant Valid()
        invariant Contents() == AddFirst(old(Contents()), names, varies, values, lbs, ubs, i)
        invariant cursor == old(cursor)
      {
        var _ := Add(names[i], varies[i], values[i], lbs[i], ubs[i]);
        i := i + 1;
      }
      out := Pass;
    }

    /** `__iter__`: restart the key iterator. */
    method Iter()
      modifies this
      ensures cursor == 0 && Contents() == old(Contents())
    {
      cursor := 0;
    }

    /** `__next__`: the next key in insertion order, or StopIteration. */
    method Next() returns (r: Result<string>)
      modifies this
      ensures Contents() == old(Contents())
      ensures old(cursor) < |order| ==> r == Success(order[old(cursor)]) && cursor == old(cursor) + 1
      ensures old(cursor) >= |order| ==> r.Failure? && cursor == old(cursor)
    {
      if cursor < |order| {
        r := Success(order[cursor]);
        cursor := cursor + 1;
      } else {
        r := Failure("StopIteration");
      }
    }

    /** `params_vary_on` (flag true) and `params_vary_off` (flag false): walk
      the keys with the iterator and set each parameter's vary flag. */
    method SetVaryAll(flag: bool)
      requires Valid()
      modifies this
      ensures Valid()
      ensures Contents() == WithVary(old(Contents()), flag)
      ensures cursor == |order|
    {
      ghost var start := entries;
      cursor := 0;
      while cursor < |order|
        invariant cursor <= |order|
        invariant order == old(order)
        invariant entries.Keys == start.Keys
        invariant forall k :: k in start ==>
          entries[k] == if k in order[..cursor] then start[k].(vary := flag) else start[k]
      {
        var p := order[cursor];
        assert order[..cursor + 1] == order[..cursor] + [p];
        cursor := cursor + 1;
        entries := entries[p := entries[p].(vary := flag)];
      }
      assert order[..cursor] == order;
    }

    /** `initialize_lmfit_parameters`: the varying parameters, in key order,
      as solver entries. */
    method ExportVarying() returns (ps: seq<SolverParameter>)
      requires Valid()
      modifies this
      ensures Valid()
      ensures ps == Export(old(Contents()))
      ensures Contents() == old(Contents()) && cursor == |order|
    {
      ps := [];
      cursor := 0;
      while cursor < |order|
        invariant cursor <= |order|
        invariant Contents() == old(Contents())
        invariant ps == ExportKeys(Contents(), order[..cursor])
      {
        var p := order[cursor];
        assert order[..cursor + 1][..cursor] == order[..cursor];
        cursor := cursor + 1;
        var par := entries[p];
        if par.vary {
          ps := ps + [SolverParameter(p, par.value, par.lb, par.ub)];
        }
      }
      assert order[..cursor] == order;
    }

    /** `update_parameters`: copy each solved value into the entry of the
      same name; an unknown name raises, leaving the earlier writes. */
    method UpdateValues(solved: seq<SolverParameter>) returns (out: Outcome)
      requires Valid()
      modifies this
      ensures Valid()
      ensures Progress(Contents(), out) == Update(old(Contents()), solved)
      ensures cursor == old(cursor)
    {
      var i := 0;
      while i < |solved|
        invariant 0 <= i <= |solved|
        invariant Valid()
        invariant UpdateFirst(old(Contents()), solved, i) == Progress(Contents(), Pass)
        invariant cursor == old(cursor)
      {
        var e := solved[i];
        if e.name !in entries {
          UpdateFailed(old(Contents()), solved, i + 1);
          return Fail("variable with name not found");
        }
        entries := entries[e.name := entries[e.name].(value := e.value)];
        i := i + 1;
      }
      out := Pass;
    }
  }

  /** Once a lookup has failed, the rest of the list changes nothing. */
  lemma {:induction false} UpdateFailed(st: Store, solved: seq<SolverParameter>, n: nat)
    requires n <= |solved|
    requires UpdateFirst(st, solved, n).outcome.Fail?
    ensures Update(st, solved) == UpdateFirst(st, solved, n)
  {
    UpdateFailedFrom(st, solved, n, |solved|);
  }

  lemma {:induction false} UpdateFailedFrom(st: Store, solved: seq<SolverParameter>, n: nat, m: nat)
    requires n <= m <= |solved|
    requires UpdateFirst(st, solved, n).outcome.Fail?
    ensures UpdateFirst(st, solved, m) == UpdateFirst(st, solved, n)
    decreases m
  {
    if m > n {
      UpdateFailedFrom(st, solved, n, m - 1);
    }
  }
}
