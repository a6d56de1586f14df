/** The loops of the protocol codec, each computing what its specification function says. */
module ProtocolLoops {
  import opened Texts
  import opened Json
  import opened Protocol
  import opened Snapshot
  import W = Vocabulary

  /** `Exact`: strike out every key met; fail on one that was not expected or that is left over. */
  method Exact(o: map<Text, Json>, expected: set<Text>) returns (ok: bool)
    ensures ok <==> o.Keys == expected
  {
    var remaining, todo := expected, o.Keys;
    while todo != {}
      invariant todo <= o.Keys && o.Keys - todo <= expected
      invariant remaining == expected - (o.Keys - todo)
      decreases todo
    {
      var key :| key in todo;
      if key !in remaining { return false; }
      remaining, todo := remaining - {key}, todo - {key};
    }
    ok := remaining == {};
    if ok {
      assert expected <= o.Keys;
    }
  }

  /** A list grows by one text: it stays ascending exactly when the new text comes after the last. */
  lemma AscendingAppend(s: seq<Text>, t: Text)
    ensures Ascending(s + [t]) <==> Ascending(s) && (s != [] ==> Before(s[|s| - 1], t))
  {
    var n := s + [t];
    if Ascending(n) {
      forall i, j | 0 <= i < j < |s| ensures Before(s[i], s[j]) {
        assert n[i] == s[i] && n[j] == s[j];
        assert Before(n[i], n[j]);
      }
      if s != [] {
        assert Before(n[|s| - 1], n[|s|]);
      }
    }
    if Ascending(s) && (s != [] ==> Before(s[|s| - 1], t)) {
      forall i, j | 0 <= i < j < |n| ensures Before(n[i], n[j]) {
        if j == |s| && i < |s| - 1 { BeforeTransitive(s[i], s[|s| - 1], t); }
      }
    }
  }

  lemma AscendingPrefix(s: seq<Text>, n: nat)
    requires n <= |s| && !Ascending(s[..n])
    ensures !Ascending(s)
  {
    var i, j :| 0 <= i < j < n && !Before(s[..n][i], s[..n][j]);
    assert !Before(s[i], s[j]);
  }

  function KeysOf(key: Json -> Text, items: seq<Json>): seq<Text> {
    seq(|items|, i requires 0 <= i < |items| => key(items[i]))
  }

  /** Every item is valid and the keys rise strictly. */
  predicate Ordered(valid: Json -> bool, key: Json -> Text, items: seq<Json>) {
    (forall i :: 0 <= i < |items| ==> valid(items[i])) && Ascending(KeysOf(key, items))
  }

  lemma OrderedNext(valid: Json -> bool, key: Json -> Text, items: seq<Json>, i: nat)
    requires i < |items|
    ensures Ordered(valid, key, items[..i + 1]) <==>
      Ordered(valid, key, items[..i]) && valid(items[i]) && (i > 0 ==> Before(key(items[i - 1]), key(items[i])))
  {
    var before, after := items[..i], items[..i + 1];
    assert after == before + [items[i]];
    assert KeysOf(key, after) == KeysOf(key, before) + [key(items[i])];
    AscendingAppend(KeysOf(key, before), key(items[i]));
    assert forall k :: 0 <= k < i ==> before[k] == after[k];
  }

  lemma OrderedPrefix(valid: Json -> bool, key: Json -> Text, items: seq<Json>, n: nat)
    requires n <= |items| && !Ordered(valid, key, items[..n])
    ensures !Ordered(valid, key, items)
  {
    assert KeysOf(key, items[..n]) == KeysOf(key, items)[..n];
    if !Ascending(KeysOf(key, items[..n])) {
      AscendingPrefix(KeysOf(key, items), n);
    } else {
      var k :| 0 <= k < n && !valid(items[..n][k]);
      assert !valid(items[k]);
    }
  }

  /** The loop of the sorted-list checks: each item is checked and compared with the one before it. */
  method CheckOrdered(valid: Json -> bool, key: Json -> Text, items: seq<Json>) returns (ok: bool)
    ensures ok <==> Ordered(valid, key, items)
  {
    var prior: Option<Text> := None;
    for i := 0 to |items|
      invariant Ordered(valid, key, items[..i])
      invariant prior == if i == 0 then None else Some(key(items[i - 1]))
    {
      OrderedNext(valid, key, items, i);
      if !valid(items[i]) || (prior.Some? && !Before(prior.value, key(items[i]))) {
        OrderedPrefix(valid, key, items, i + 1);
        return false;
      }
      prior := Some(key(items[i]));
    }
    assert items[..|items|] == items;
    return true;
  }

  /** `SortedStrings`. */
  method CheckSortedStrings(v: Json) returns (ok: bool)
    ensures ok <==> SortedStrings(v)
  {
    if !v.Arr? { return false; }
    ok := CheckOrdered((item: Json) => item.Str?, TextOf, v.items);
    assert KeysOf(TextOf, v.items) == TextsOf(v.items);
  }

  /** The entity loop of `ValidateSnapshot`. */
  method CheckEntities(c: Contract, items: seq<Json>) returns (ok: bool)
    ensures ok <==> ValidEntities(c, items)
  {
    var key := item => EntityKey(c, item);
    ok := CheckOrdered(item => ValidEntity(c, item), key, items);
    assert KeysOf(key, items) == EntityKeys(c, items);
  }

  /** The surface loop of `ValidateSnapshot`. */
  method CheckSurfaces(c: Contract, items: seq<Json>) returns (ok: bool)
    ensures ok <==> ValidSurfaces(c, items)
  {
    var key := item => SurfaceName(c, item);
    ok := CheckOrdered(item => ValidSurface(c, item), key, items);
    assert KeysOf(key, items) == SurfaceNames(c, items);
  }

  /** `GameStateFields`. */
  method ListGameStateFields(c: Contract, state: State) returns (fields: seq<Text>)
    ensures fields == GameStateFields(c, state)
  {
    if !state.available { return []; }
    if state.values.Some? {
      fields := SortOrdinal(state.values.value.Keys);
      return;
    }
    fields := [];
    if state.currentTime.Some? { fields := fields + [c.name(W.CurrentTime)]; }
    if state.gameMode.Some? { fields := fields + [c.name(W.GameMode)]; }
    if state.paused.Some? { fields := fields + [c.name(W.Paused)]; }
    if state.simulationSpeed.Some? { fields := fields + [c.name(W.SimulationSpeed)]; }
  }

  /** The dictionary of the supplied surfaces by name; `None` when a name comes twice. */
  method IndexSurfaces(surfaces: seq<Surface>) returns (byName: Option<map<Text, Surface>>)
    ensures byName.Some? <==> DistinctNames(surfaces)
    ensures byName.Some? ==> forall name ::
              Find(surfaces, name) == if name in byName.value then Some(byName.value[name]) else None
  {
    var index: map<Text, Surface> := map[];
    for i := 0 to |surfaces|
      invariant DistinctNames(surfaces[..i])
      invariant forall k :: 0 <= k < i ==> surfaces[k].name in index && index[surfaces[k].name] == surfaces[k]
      invariant forall name :: name in index ==> exists k :: 0 <= k < i && surfaces[k].name == name
    {
      if surfaces[i].name in index {
        var k :| 0 <= k < i && surfaces[k].name == surfaces[i].name;
        return None;
      }
      index := index[surfaces[i].name := surfaces[i]];
    }
    assert surfaces[..|surfaces|] == surfaces;
    forall name ensures Find(surfaces, name) == if name in index then Some(index[name]) else None {
      FindNamed(surfaces, name);
    }
    return Some(index);
  }

  function Row(name: Text, games: Surface, byName: map<Text, Surface>): Surface {
    if name == games.name then games
    else if name in byName then byName[name]
    else Surface(name, Unsupported, [], UNPROVEN, [])
  }

  /** The rows of a snapshot in any order. */
  ghost predicate Rows(c: Contract, state: State, rows: seq<Surface>) {
    forall k :: 0 <= k < |rows| ==> rows[k] == SurfaceFor(c, state, rows[k].name)
  }

  /** The game state first, then the other surfaces of the contract. */
  method ListRows(c: Contract, ghost state: State, games: Surface, byName: map<Text, Surface>) returns (rows: seq<Surface>)
    requires Ascending(c.surfaces) && games == GameStateSurface(c, state)
    requires forall name :: Find(state.surfaces, name) == if name in byName then Some(byName[name]) else None
    ensures Rows(c, state, rows) && DistinctNames(rows)
    ensures Elements(NamesOf(rows)) == Elements(c.surfaces) + {games.name}
  {
    rows := [games];
    AppendName([], games);
    assert c.surfaces[..0] == [] && [] + [games] == rows && NamesOf([]) == [];
    for i := 0 to |c.surfaces|
      invariant Rows(c, state, rows) && DistinctNames(rows)
      invariant Elements(NamesOf(rows)) == Elements(c.surfaces[..i]) + {games.name}
    {
      NextName(c.surfaces, i);
      if c.surfaces[i] != games.name {
        SurfaceForNamed(c, state, c.surfaces[i]);
        var row := Row(c.surfaces[i], games, byName);
        AppendName(rows, row);
        rows := rows + [row];
      }
    }
    assert c.surfaces[..|c.surfaces|] == c.surfaces;
  }

  lemma SameRows(c: Contract, state: State, rows: seq<Surface>, sorted: seq<Surface>)
    requires Rows(c, state, rows) && multiset(sorted) == multiset(rows)
    ensures Rows(c, state, sorted)
  {
    forall k | 0 <= k < |sorted| ensures sorted[k] == SurfaceFor(c, state, sorted[k].name) {
      assert sorted[k] in multiset(rows);
    }
  }

  lemma SortedRows(c: Contract, state: State, rows: seq<Surface>)
    requires Rows(c, state, rows) && Ascending(NamesOf(rows))
    requires Elements(NamesOf(rows)) == Elements(c.surfaces) + {c.name(W.GameState)}
    ensures rows == Reported(c, state)
  {
    AscendingIsSorted(NamesOf(rows));
    assert NamesOf(rows) == ReportedNames(c);
    forall k | 0 <= k < |rows| ensures rows[k] == Reported(c, state)[k] {
      assert NamesOf(rows)[k] == ReportedNames(c)[k];
    }
  }

  /** `Surfaces` up to its encoding: the rows of the snapshot, sorted by surface name. */
  method MergeSurfaces(c: Contract, state: State) returns (rows: Option<seq<Surface>>)
    requires Ascending(c.surfaces)
    ensures rows.Some? <==> DistinctNames(state.surfaces)
    ensures rows.Some? ==> rows.value == Reported(c, state)
  {
    var byName := IndexSurfaces(state.surfaces);
    if byName.None? { return None; }
    var fields := ListGameStateFields(c, state);
    var status := if !state.available || |fields| == 0 then Unavailable
      else if state.values.Some? || |fields| == 4 then ObservedComplete else ObservedPartial;
    var games := Surface(c.name(W.GameState), status, fields, state.detail, []);
    var listed := ListRows(c, state, games, byName.value);
    var sorted := SortByName(listed);
    SameRows(c, state, listed, sorted);
    SortedRows(c, state, sorted);
    return Some(sorted);
  }

  lemma NextName(names: seq<Text>, i: nat)
    requires Ascending(names) && i < |names|
    ensures Elements(names[..i + 1]) == Elements(names[..i]) + {names[i]} && names[i] !in Elements(names[..i])
  {
    assert names[..i + 1] == names[..i] + [names[i]];
    forall x | x in Elements(names[..i]) + {names[i]} ensures x in names[..i + 1] {
      if x == names[i] { assert names[..i + 1][i] == x; }
    }
    if names[i] in names[..i] {
      var k :| 0 <= k < i && names[k] == names[i];
      BeforeIrreflexive(names[i]);
      assert false;
    }
  }

  lemma AppendName(rows: seq<Surface>, row: Surface)
    ensures NamesOf(rows + [row]) == NamesOf(rows) + [row.name]
    ensures Elements(NamesOf(rows + [row])) == Elements(NamesOf(rows)) + {row.name}
    ensures DistinctNames(rows) && row.name !in Elements(NamesOf(rows)) ==> DistinctNames(rows + [row])
  {
    var names := NamesOf(rows);
    forall x | x in Elements(names) + {row.name} ensures x in names + [row.name] {
      if x == row.name { assert (names + [row.name])[|names|] == x; }
    }
    forall i | 0 <= i < |rows| ensures names[i] in Elements(names) && names[i] == rows[i].name {}
  }

  /** The place of a name in an ascending list of rows. */
  method PlaceFor(r: seq<Surface>, name: Text) returns (i: nat)
    ensures i <= |r| && (i < |r| ==> !Before(r[i].name, name))
    ensures forall j :: 0 <= j < i ==> Before(r[j].name, name)
  {
    i := 0;
    while i < |r| && Before(r[i].name, name)
      invariant 0 <= i <= |r|
      invariant forall j :: 0 <= j < i ==> Before(r[j].name, name)
    {
      i := i + 1;
    }
  }

  /** Insertion sort by surface name. */
  method SortByName(rows: seq<Surface>) returns (r: seq<Surface>)
    requires DistinctNames(rows)
    ensures multiset(r) == multiset(rows)
    ensures Ascending(NamesOf(r)) && Elements(NamesOf(r)) == Elements(NamesOf(rows))
  {
    r := [];
    for n := 0 to |rows|
      invariant multiset(r) == multiset(rows[..n])
      invariant Ascending(NamesOf(r)) && Elements(NamesOf(r)) == Elements(NamesOf(rows[..n]))
    {
      var i := PlaceFor(r, rows[n].name);
      NextRow(rows, n, r, i);
      r := r[..i] + [rows[n]] + r[i..];
    }
    assert rows[..|rows|] == rows;
  }

  lemma NextRow(rows: seq<Surface>, n: nat, r: seq<Surface>, i: nat)
    requires DistinctNames(rows) && n < |rows| && i <= |r|
    requires multiset(r) == multiset(rows[..n])
    requires Ascending(NamesOf(r)) && Elements(NamesOf(r)) == Elements(NamesOf(rows[..n]))
    requires i < |r| ==> !Before(r[i].name, rows[n].name)
    requires forall j :: 0 <= j < i ==> Before(r[j].name, rows[n].name)
    ensures var t := r[..i] + [rows[n]] + r[i..];
      && multiset(t) == multiset(rows[..n + 1])
      && Ascending(NamesOf(t)) && Elements(NamesOf(t)) == Elements(NamesOf(rows[..n + 1]))
  {
    assert rows[..n + 1] == rows[..n] + [rows[n]];
    AppendName(rows[..n], rows[n]);
    FreshName(rows, n);
    InsertAscending(NamesOf(r), i, rows[n].name);
    Inserted(r, i, rows[n]);
    InsertedNames(r, i, rows[n]);
  }

  lemma FreshName(rows: seq<Surface>, n: nat)
    requires DistinctNames(rows) && n < |rows|
    ensures rows[n].name !in Elements(NamesOf(rows[..n]))
  {
    forall k | 0 <= k < n ensures NamesOf(rows[..n])[k] != rows[n].name {}
  }

  lemma Inserted(r: seq<Surface>, i: nat, row: Surface)
    requires i <= |r|
    ensures multiset(r[..i] + [row] + r[i..]) == multiset(r) + multiset{row}
  {
    assert r == r[..i] + r[i..];
  }

  lemma InsertedNames(r: seq<Surface>, i: nat, row: Surface)
    requires i <= |r|
    ensures NamesOf(r[..i] + [row] + r[i..]) == NamesOf(r)[..i] + [row.name] + NamesOf(r)[i..]
  {
    var n := r[..i] + [row] + r[i..];
    forall k | 0 <= k < |n| ensures NamesOf(n)[k] == (NamesOf(r)[..i] + [row.name] + NamesOf(r)[i..])[k] {}
  }
}
