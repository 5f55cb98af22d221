/**
 * MCP server records and the index of their names, in one secret store
 * (crates/core/src/mcp_servers.rs, crates/core/src/instance.rs).
 */
module McpIndex {
  import opened Wrappers
  import opened Text
  import opened McpEdit

  /** A stored value; each parses as itself and as nothing else. */
  datatype Blob = EntryBlob(entry: Entry) | IndexBlob(names: seq<string>)

  type Rows = map<(string, string), Blob>

  const INDEX := "_index"

  function EntryKey(id: string, name: string): string {
    "mcp" + "." + (id + "." + name)
  }

  function IndexKey(id: string): string {
    EntryKey(id, INDEX)
  }

  /** None when the index row does not parse as a list of names. */
  function Index(rows: Rows, owner: string, id: string): Option<seq<string>> {
    if (owner, IndexKey(id)) !in rows then Some([])
    else if rows[(owner, IndexKey(id))].IndexBlob? then Some(rows[(owner, IndexKey(id))].names) else None
  }

  function EntryAt(rows: Rows, owner: string, id: string, name: string): Option<Entry> {
    if (owner, EntryKey(id, name)) in rows && rows[(owner, EntryKey(id, name))].EntryBlob?
    then Some(rows[(owner, EntryKey(id, name))].entry) else None
  }

  predicate Distinct(names: seq<string>) {
    forall i, j | 0 <= i < j < |names| :: names[i] != names[j]
  }

  /** The index is duplicate-free and lists exactly the names that have an entry. */
  ghost predicate Consistent(rows: Rows, owner: string, id: string) {
    && Index(rows, owner, id).Some? && Distinct(Index(rows, owner, id).value)
    && (forall n :: n in Index(rows, owner, id).value <==> EntryAt(rows, owner, id, n).Some?)
    && (forall n | n != INDEX && (owner, EntryKey(id, n)) in rows :: rows[(owner, EntryKey(id, n))].EntryBlob?)
  }

  predicate SameAt(rows: Rows, next: Rows, key: (string, string)) {
    (key in rows <==> key in next) && (key in rows ==> rows[key] == next[key])
  }

  /** Only rows of this owner's instance may differ. */
  ghost predicate OnlyInstance(rows: Rows, next: Rows, owner: string, id: string) {
    forall o, key :: (o == owner && StartsWith(key, EntryKey(id, ""))) || SameAt(rows, next, (o, key))
  }

  lemma KeysInjective(id: string)
    ensures forall m, n :: EntryKey(id, m) == EntryKey(id, n) ==> m == n
    ensures forall n :: StartsWith(EntryKey(id, n), EntryKey(id, ""))
  {
    forall m, n | EntryKey(id, m) == EntryKey(id, n) ensures m == n {
      assert EntryKey(id, m)[|id| + 5..] == m && EntryKey(id, n)[|id| + 5..] == n;
    }
    forall n ensures StartsWith(EntryKey(id, n), EntryKey(id, "")) {
      assert EntryKey(id, n)[..|id| + 5] == EntryKey(id, "");
    }
  }

  /** Two instances whose ids hold no dot share no key. */
  lemma InstancesAreApart(id: string, other: string, name: string)
    requires '.' !in id && '.' !in other && StartsWith(EntryKey(other, name), EntryKey(id, ""))
    ensures id == other
  {
    var x, y := EntryKey(other, name)[4..], EntryKey(id, "")[4..];
    assert x == other + "." + name && y == id + ".";
    assert y <= x;
    assert x == id + "." + x[|id| + 1..];
    HeadIsDetermined(other, id, name, x[|id| + 1..], '.');
  }

  /** So an operation that keeps to its own instance keeps every other one consistent, and its entries. */
  lemma OthersUntouched(rows: Rows, next: Rows, owner: string, id: string, owner2: string, other: string)
    requires OnlyInstance(rows, next, owner, id) && '.' !in id && '.' !in other && (owner2 != owner || other != id)
    ensures forall n :: EntryAt(next, owner2, other, n) == EntryAt(rows, owner2, other, n)
    ensures Index(next, owner2, other) == Index(rows, owner2, other)
    ensures Consistent(rows, owner2, other) ==> Consistent(next, owner2, other)
  {
    hide EntryKey;
    forall n ensures SameAt(rows, next, (owner2, EntryKey(other, n))) {
      if owner2 == owner && StartsWith(EntryKey(other, n), EntryKey(id, "")) {
        InstancesAreApart(id, other, n);
      }
    }
    assert SameAt(rows, next, (owner2, IndexKey(other)));
  }

  // ----- Name lists -----

  function Without(names: seq<string>, name: string): seq<string> {
    if names == [] then [] else (if names[0] == name then [] else [names[0]]) + Without(names[1..], name)
  }

  lemma DistinctCons(x: string, names: seq<string>)
    ensures Distinct([x] + names) <==> x !in names && Distinct(names)
  {
    var all := [x] + names;
    forall i | 0 <= i < |names| && Distinct(all) ensures names[i] != x {
      assert names[i] == all[i + 1] && all[0] == x;
    }
    forall i, j | 0 <= i < j < |names| && Distinct(all) ensures names[i] != names[j] {
      assert names[i] == all[i + 1] && names[j] == all[j + 1];
    }
  }

  lemma {:induction false} WithoutIs(names: seq<string>, name: string)
    ensures forall n :: n in Without(names, name) <==> n in names && n != name
    ensures Distinct(names) ==> Distinct(Without(names, name))
  {
    if names != [] {
      WithoutIs(names[1..], name);
      assert names == [names[0]] + names[1..];
      DistinctCons(names[0], names[1..]);
      DistinctCons(names[0], Without(names[1..], name));
    }
  }

  function WithName(names: seq<string>, name: string): seq<string> {
    if name in names then names else names + [name]
  }

  lemma WithNameIs(names: seq<string>, name: string)
    ensures forall n :: n in WithName(names, name) <==> n in names || n == name
    ensures Distinct(names) ==> Distinct(WithName(names, name))
  {
  }

  // ----- Single-row effects -----

  /** The index row after writing `names`, or after dropping it when there are none. */
  function SetIndex(rows: Rows, owner: string, id: string, names: seq<string>, dropEmpty: bool): Rows {
    if dropEmpty && names == [] then rows - {(owner, IndexKey(id))} else rows[(owner, IndexKey(id)) := IndexBlob(names)]
  }

  /** After the entries were brought to `entries`, writing exactly those names restores consistency. */
  lemma IndexRestored(rows: Rows, owner: string, id: string, names: seq<string>, dropEmpty: bool)
    requires Distinct(names) && INDEX !in names
    requires forall n | n != INDEX :: n in names <==> EntryAt(rows, owner, id, n).Some?
    requires forall n | n != INDEX && (owner, EntryKey(id, n)) in rows :: rows[(owner, EntryKey(id, n))].EntryBlob?
    ensures var next := SetIndex(rows, owner, id, names, dropEmpty);
            && Consistent(next, owner, id) && OnlyInstance(rows, next, owner, id)
            && forall n | n != INDEX :: EntryAt(next, owner, id, n) == EntryAt(rows, owner, id, n)
  {
    KeysInjective(id);
    hide EntryKey;
    var next := SetIndex(rows, owner, id, names, dropEmpty);
    assert forall n | n != INDEX :: SameAt(rows, next, (owner, EntryKey(id, n)));
    assert forall o, key | o != owner || key != IndexKey(id) :: SameAt(rows, next, (o, key));
  }

  lemma EntryPut(rows: Rows, owner: string, id: string, name: string, entry: Entry)
    requires name != INDEX
    ensures var next := rows[(owner, EntryKey(id, name)) := EntryBlob(entry)];
            && OnlyInstance(rows, next, owner, id) && Index(next, owner, id) == Index(rows, owner, id)
            && forall n :: EntryAt(next, owner, id, n) == if n == name then Some(entry) else EntryAt(rows, owner, id, n)
  {
    KeysInjective(id);
    hide EntryKey;
    EntryPutAny(rows, owner, id, name, entry);
  }

  lemma EntryDelete(rows: Rows, owner: string, id: string, name: string)
    requires name != INDEX
    ensures var next := rows - {(owner, EntryKey(id, name))};
            && OnlyInstance(rows, next, owner, id) && Index(next, owner, id) == Index(rows, owner, id)
            && forall n :: EntryAt(next, owner, id, n) == if n == name then None else EntryAt(rows, owner, id, n)
  {
    KeysInjective(id);
    hide EntryKey;
    var next := rows - {(owner, EntryKey(id, name))};
    assert forall n | n != name :: SameAt(rows, next, (owner, EntryKey(id, n)));
    assert forall o, key | o != owner || key != EntryKey(id, name) :: SameAt(rows, next, (o, key));
  }

  lemma OnlyInstanceTransitive(a: Rows, b: Rows, c: Rows, owner: string, id: string)
    requires OnlyInstance(a, b, owner, id) && OnlyInstance(b, c, owner, id)
    ensures OnlyInstance(a, c, owner, id)
  {
    forall o, key | !(o == owner && StartsWith(key, EntryKey(id, ""))) ensures SameAt(a, c, (o, key)) {
      assert SameAt(a, b, (o, key)) && SameAt(b, c, (o, key));
    }
  }

  /** Every entry is as before except the one named. */
  ghost predicate EntrySet(rows: Rows, next: Rows, owner: string, id: string, name: string, entry: Option<Entry>) {
    forall n :: EntryAt(next, owner, id, n) == if n == name then entry else EntryAt(rows, owner, id, n)
  }

  lemma NoIndexEntry(rows: Rows, owner: string, id: string)
    requires Consistent(rows, owner, id)
    ensures INDEX !in Index(rows, owner, id).value && EntryAt(rows, owner, id, INDEX).None?
  {
    hide EntryKey;
  }

  /** The checks a put makes before it reads or writes anything. */
  predicate Accepted(name: string, spec: Spec, urlsAllowed: bool) {
    !IsBlank(name) && !IsBlank(spec.url) && urlsAllowed
  }

  class McpStore {
    var rows: Rows

    constructor (rows: Rows)
      ensures this.rows == rows
    {
      this.rows := rows;
    }

    /** Writes one entry and, if it is new, its name; the tail of both kinds of put. */
    method PutEntry(owner: string, id: string, name: string, entry: Entry) returns (ok: bool)
      modifies this
      ensures name != INDEX && old(Consistent(rows, owner, id)) ==>
                ok && Consistent(rows, owner, id) && EntrySet(old(rows), rows, owner, id, name, Some(entry))
      ensures name != INDEX ==> OnlyInstance(old(rows), rows, owner, id)
      ensures name == INDEX ==> !ok && rows == old(rows)[(owner, IndexKey(id)) := EntryBlob(entry)]
    {
      hide EntryKey;
      if name != INDEX {
        EntryPut(rows, owner, id, name, entry);
      }
      rows := rows[(owner, EntryKey(id, name)) := EntryBlob(entry)];
      var names := Index(rows, owner, id);
      if names.None? {
        return false;
      }
      ghost var mid := rows;
      WithNameIs(names.value, name);
      if name !in names.value {
        rows := SetIndex(rows, owner, id, names.value + [name], false);
      }
      if old(Consistent(rows, owner, id)) {
        NoIndexEntry(old(rows), owner, id);
        EntriesStayEntries(old(rows), owner, id, name, entry);
        IndexRestored(mid, owner, id, WithName(names.value, name), false);
        if name in names.value {
          IndexUnchanged(mid, owner, id);
        }
      }
      SetIndexOnly(mid, owner, id, names.value + [name], false);
      OnlyInstanceTransitive(old(rows), mid, rows, owner, id);
      return true;
    }

    /**
     * `put_mcp_server`: saves the form over the entry that is there, which must parse. Keeps the index
     * exact unless the name is the index's own and there is no index yet. `urlsAllowed` is the outcome
     * of the url checks.
     */
    method PutServer(owner: string, id: string, name: string, spec: Spec, urlsAllowed: bool) returns (ok: bool)
      requires Consistent(rows, owner, id)
      modifies this
      ensures Consistent(rows, owner, id) <==>
                (!Accepted(name, spec, urlsAllowed) || name != INDEX || (owner, IndexKey(id)) in old(rows))
      ensures OnlyInstance(old(rows), rows, owner, id)
      ensures ok <==> Accepted(name, spec, urlsAllowed) && name != INDEX
      ensures ok ==> EntrySet(old(rows), rows, owner, id, name, Some(Edited(EntryAt(old(rows), owner, id, name), spec)))
      ensures !ok && Consistent(rows, owner, id) ==> rows == old(rows)
    {
      hide EntryKey, Edited, IsBlank;
      SetIndexOnly(rows, owner, id, [], true);
      if IsBlank(name) || IsBlank(spec.url) || !urlsAllowed {
        return false;
      }
      var key := (owner, EntryKey(id, name));
      if key in rows && !rows[key].EntryBlob? {
        return false;
      }
      NoIndexEntry(rows, owner, id);
      ok := PutEntry(owner, id, name, Edited(EntryAt(rows, owner, id, name), spec));
      if name == INDEX {
        OwnKeyOnly(old(rows), owner, id, EntryBlob(Edited(EntryAt(old(rows), owner, id, name), spec)));
      }
    }

    /** `put_vscode_mcp_config`: overwrites without reading first. */
    method PutVscode(owner: string, id: string, name: string, entry: Entry) returns (ok: bool)
      requires Consistent(rows, owner, id)
      modifies this
      ensures Consistent(rows, owner, id) <==> name != INDEX
      ensures OnlyInstance(old(rows), rows, owner, id)
      ensures ok <==> name != INDEX
      ensures ok ==> EntrySet(old(rows), rows, owner, id, name, Some(entry))
    {
      hide EntryKey;
      ok := PutEntry(owner, id, name, entry);
      if name == INDEX {
        OwnKeyOnly(old(rows), owner, id, EntryBlob(entry));
      }
    }

    /** `delete_mcp_server`: an unreadable entry stops it, a missing one does not. */
    method DeleteServer(owner: string, id: string, name: string) returns (ok: bool)
      requires Consistent(rows, owner, id)
      modifies this
      ensures Consistent(rows, owner, id) && OnlyInstance(old(rows), rows, owner, id)
      ensures ok <==> name != INDEX || (owner, IndexKey(id)) !in old(rows)
      ensures EntrySet(old(rows), rows, owner, id, name, None)
    {
      hide EntryKey;
      NoIndexEntry(rows, owner, id);
      SetIndexOnly(rows, owner, id, [], true);
      var key := (owner, EntryKey(id, name));
      if key in rows && !rows[key].EntryBlob? {
        return false;
      }
      if name == INDEX {
        assert rows - {key} == rows && SetIndex(rows, owner, id, [], true) == rows;
        rows := SetIndex(rows - {key}, owner, id, [], true);
        return true;
      }
      RemoveName(owner, id, name);
      return true;
    }

    /** Deletes one entry and takes its name off the index. */
    method RemoveName(owner: string, id: string, name: string)
      requires Consistent(rows, owner, id) && name != INDEX
      modifies this
      ensures Consistent(rows, owner, id) && OnlyInstance(old(rows), rows, owner, id)
      ensures EntrySet(old(rows), rows, owner, id, name, None)
    {
      hide EntryKey;
      var names := Index(rows, owner, id).value;
      NoIndexEntry(rows, owner, id);
      EntryDelete(rows, owner, id, name);
      rows := rows - {(owner, EntryKey(id, name))};
      ghost var mid := rows;
      WithoutIs(names, name);
      IndexRestored(rows, owner, id, Without(names, name), true);
      SetIndexOnly(rows, owner, id, Without(names, name), true);
      rows := SetIndex(rows, owner, id, Without(names, name), true);
      NoIndexEntry(rows, owner, id);
      OnlyInstanceTransitive(old(rows), mid, rows, owner, id);
    }

    /** The first listed name whose entry satisfies `wanted`. */
    method FindEntry(owner: string, id: string, wanted: Entry -> bool) returns (found: Option<string>)
      requires Consistent(rows, owner, id)
      ensures found.Some? ==> EntryAt(rows, owner, id, found.value).Some? && wanted(EntryAt(rows, owner, id, found.value).value)
      ensures found.None? ==> forall n | EntryAt(rows, owner, id, n).Some? :: !wanted(EntryAt(rows, owner, id, n).value)
    {
      hide EntryKey;
      var names := Index(rows, owner, id).value;
      for i := 0 to |names|
        invariant forall n <- names[..i] :: EntryAt(rows, owner, id, n).Some? && !wanted(EntryAt(rows, owner, id, n).value)
      {
        assert names[i] in names;
        if wanted(EntryAt(rows, owner, id, names[i]).value) {
          return Some(names[i]);
        }
        assert names[..i + 1] == names[..i] + [names[i]];
      }
      assert names[..|names|] == names;
      return None;
    }

    /** Deletes the one entry that came from a pasted document, if there is one. */
    method DeleteVscode(owner: string, id: string) returns (deleted: Option<string>)
      requires Consistent(rows, owner, id)
      modifies this
      ensures Consistent(rows, owner, id) && OnlyInstance(old(rows), rows, owner, id)
      ensures deleted.None? ==> rows == old(rows) && forall n | EntryAt(rows, owner, id, n).Some? :: !EntryAt(rows, owner, id, n).value.vscode
      ensures deleted.Some? ==> EntrySet(old(rows), rows, owner, id, deleted.value, None)
    {
      hide EntryKey;
      NoIndexEntry(rows, owner, id);
      SetIndexOnly(rows, owner, id, [], true);
      deleted := FindEntry(owner, id, (e: Entry) => e.vscode);
      if deleted.Some? {
        RemoveName(owner, id, deleted.value);
      }
    }

    /**
     * Renders a catalog template over the entry bound to it, if any, stores the result and drops the
     * old name when the template renamed the server. `render` gives the name and entry, or refuses.
     */
    method PutCatalog(owner: string, id: string, catalog: string, render: Option<Entry> -> Option<(string, Entry)>)
      returns (r: Option<string>)
      requires Consistent(rows, owner, id)
      modifies this
      ensures r.None? ==> rows == old(rows)
      ensures r.Some? ==> exists e: Option<Entry> :: render(e).Some? && render(e).value.0 == r.value
      ensures r.Some? ==> (Consistent(rows, owner, id) <==> r.value != INDEX)
      ensures OnlyInstance(old(rows), rows, owner, id)
      ensures r.Some? && r.value != INDEX ==> exists previous: Option<string> ::
                CatalogPut(old(rows), rows, owner, id, catalog, previous, r.value, render)
    {
      hide EntryKey, SetIndex;
      NoIndexEntry(rows, owner, id);
      SetIndexOnly(rows, owner, id, [], true);
      var names := Index(rows, owner, id).value;
      var previous := FindEntry(owner, id, (e: Entry) => e.catalog == Some(catalog));
      var rendered := render(if previous.Some? then EntryAt(rows, owner, id, previous.value) else None);
      if rendered.None? {
        return None;
      }
      var (name, entry) := rendered.value;
      rows := rows[(owner, EntryKey(id, name)) := EntryBlob(entry)];
      if previous.Some? && previous.value != name {
        rows := rows - {(owner, EntryKey(id, previous.value))};
        names := Without(names, previous.value);
      }
      rows := SetIndex(rows, owner, id, WithName(names, name), false);
      StoredAll(old(rows), owner, id, previous, name, entry);
      if name != INDEX {
        assert CatalogPut(old(rows), rows, owner, id, catalog, previous, name, render);
      }
      return Some(name);
    }

    /** The inner loop of the catalog delete: one instance loses every entry bound to the catalog. */
    method DeleteCatalogFrom(owner: string, id: string, catalog: string)
      requires Consistent(rows, owner, id)
      modifies this
      ensures Consistent(rows, owner, id) && OnlyInstance(old(rows), rows, owner, id)
      ensures Unbound(old(rows), rows, owner, id, catalog)
    {
      hide EntryKey, SetIndex, Distinct;
      NoIndexEntry(rows, owner, id);
      SetIndexOnly(rows, owner, id, [], true);
      var names := Index(rows, owner, id).value;
      var nextNames, removed := [], false;
      NothingListed();
      for i := 0 to |names|
        invariant OnlyInstance(old(rows), rows, owner, id) && OnlyEntries(rows, owner, id)
        invariant forall n :: EntryAt(rows, owner, id, n) ==
                    if n in names[..i] && Bound(EntryAt(old(rows), owner, id, n), catalog) then None else EntryAt(old(rows), owner, id, n)
        invariant forall n :: n in nextNames <==> n in names[..i] && EntryAt(rows, owner, id, n).Some?
        invariant Distinct(nextNames) && (!removed ==> rows == old(rows))
        invariant removed <==> exists n <- names[..i] :: Bound(EntryAt(old(rows), owner, id, n), catalog)
      {
        var name := names[i];
        FreshInPrefix(names, i);
        assert names[..i + 1] == names[..i] + [name] && name in names;
        var entry := EntryAt(rows, owner, id, name);
        if Bound(entry, catalog) {
          EntryDelete(rows, owner, id, name);
          EntriesStayDeleted(rows, owner, id, name);
          OnlyInstanceTransitive(old(rows), rows, rows - {(owner, EntryKey(id, name))}, owner, id);
          rows := rows - {(owner, EntryKey(id, name))};
          removed := true;
        } else {
          DistinctSnoc(nextNames, name);
          nextNames := nextNames + [name];
        }
      }
      assert names[..|names|] == names;
      if removed {
        IndexRestored(rows, owner, id, nextNames, true);
        SetIndexOnly(rows, owner, id, nextNames, true);
        OnlyInstanceTransitive(old(rows), rows, SetIndex(rows, owner, id, nextNames, true), owner, id);
        rows := SetIndex(rows, owner, id, nextNames, true);
        NoIndexEntry(rows, owner, id);
      }
    }

    /** Deleting a catalog template: every instance of every owner, none disturbing another. */
    method DeleteForCatalog(instances: seq<(string, string)>, catalog: string)
      requires forall i, j | 0 <= i < j < |instances| :: instances[i] != instances[j]
      requires forall p <- instances :: '.' !in p.1 && Consistent(rows, p.0, p.1)
      modifies this
      ensures forall p <- instances :: Consistent(rows, p.0, p.1) && Unbound(old(rows), rows, p.0, p.1, catalog)
      ensures forall o, other | '.' !in other && (o, other) !in instances :: Undisturbed(old(rows), rows, o, other)
    {
      hide EntryKey, Consistent, EntryAt, Undisturbed;
      NothingDisturbed(rows);
      for k := 0 to |instances|
        invariant forall p <- instances :: Consistent(rows, p.0, p.1)
        invariant forall i | 0 <= i < k :: Unbound(old(rows), rows, instances[i].0, instances[i].1, catalog)
        invariant forall i | k <= i < |instances| :: SameEntries(old(rows), rows, instances[i].0, instances[i].1)
        invariant forall o, other | '.' !in other && (o, other) !in instances :: Undisturbed(old(rows), rows, o, other)
      {
        ghost var before := rows;
        var p := instances[k];
        assert p in instances;
        DeleteCatalogFrom(p.0, p.1, catalog);
        forall i | 0 <= i < |instances| && i != k ensures
          Consistent(rows, instances[i].0, instances[i].1) && SameEntries(before, rows, instances[i].0, instances[i].1)
        {
          assert instances[i] in instances;
          OthersUntouched(before, rows, p.0, p.1, instances[i].0, instances[i].1);
        }
        forall o, other | '.' !in other && (o, other) !in instances ensures Undisturbed(old(rows), rows, o, other) {
          UndisturbedStep(old(rows), before, rows, p.0, p.1, o, other);
        }
      }
    }

    /**
     * Writes the given servers and an index of their names. A name given twice keeps its last entry;
     * entries that were there and are not given stay, so the previous configuration is replaced
     * exactly when every entry it had is given again.
     */
    method PutAll(owner: string, id: string, specs: seq<(string, Entry)>)
      requires Consistent(rows, owner, id)
      modifies this
      ensures OnlyInstance(old(rows), rows, owner, id) && Index(rows, owner, id) == Some(NamesOf(specs))
      ensures Given(old(rows), rows, owner, id, specs)
      ensures EntryAt(rows, owner, id, INDEX).None?
      ensures (forall n | n != INDEX :: EntryAt(rows, owner, id, n) == LastNamed(specs, n)) <==> Covers(old(rows), owner, id, specs)
      ensures Consistent(rows, owner, id) <==>
                Distinct(NamesOf(specs)) && INDEX !in NamesOf(specs) && Covers(old(rows), owner, id, specs)
    {
      hide EntryKey, Distinct, LastNamed;
      SetIndexOnly(rows, owner, id, [], true);
      NoIndexEntry(rows, owner, id);
      var names := [];
      NothingNamed();
      assert specs[..0] == [];
      for i := 0 to |specs|
        invariant names == NamesOf(specs[..i])
        invariant OnlyInstance(old(rows), rows, owner, id) && OnlyEntries(rows, owner, id)
        invariant Given(old(rows), rows, owner, id, specs[..i])
      {
        var (name, entry) := specs[i];
        LastNamedSnoc(specs, i);
        GivenStep(old(rows), rows, owner, id, specs, i);
        EntryPutAny(rows, owner, id, name, entry);
        EntriesStayPut(rows, owner, id, name, entry);
        OnlyInstanceTransitive(old(rows), rows, rows[(owner, EntryKey(id, name)) := EntryBlob(entry)], owner, id);
        rows := rows[(owner, EntryKey(id, name)) := EntryBlob(entry)];
        names := names + [name];
      }
      assert specs[..|specs|] == specs;
      NamedIffLast(specs);
      IndexWritten(rows, owner, id, names);
      OnlyInstanceTransitive(old(rows), rows, SetIndex(rows, owner, id, names, false), owner, id);
      rows := SetIndex(rows, owner, id, names, false);
    }

    /**
     * Lays the source's entries over the destination's and writes its index there. A listed name
     * with no row is passed over; one whose row does not parse stops the copy.
     */
    method CopyAll(owner: string, src: string, dst: string) returns (copied: Option<nat>)
      requires '.' !in src && '.' !in dst
      modifies this
      ensures OnlyInstance(old(rows), rows, owner, dst)
      ensures copied.Some? <==> Copyable(old(rows), owner, src)
      ensures copied.Some? ==> CopyOf(old(rows), rows, owner, src, dst)
      ensures copied.None? && Index(old(rows), owner, src).None? ==> rows == old(rows)
      ensures copied.None? && Index(old(rows), owner, src).Some? ==> exists k: nat :: StoppedAt(old(rows), rows, owner, src, dst, k)
      ensures copied.Some? ==> copied.value == Present(old(rows), owner, src, Index(old(rows), owner, src).value)
      ensures old(Consistent(rows, owner, src)) ==> copied == Some(|Index(old(rows), owner, src).value|)
      ensures old(Consistent(rows, owner, src) && Consistent(rows, owner, dst)) ==>
                (Consistent(rows, owner, dst) <==> Covered(old(rows), owner, src, dst))
    {
      hide EntryKey, Distinct, Consistent, OnlyInstance, Overlaid, Present;
      SetIndexOnly(rows, owner, dst, [], true);
      KeysInjective(dst);
      NothingLaid(rows, owner, src, dst);
      if old(Consistent(rows, owner, src)) {
        ConsistentIsCopyable(rows, owner, src);
      }
      if Index(rows, owner, src).None? {
        return None;
      }
      var names := Index(rows, owner, src).value;
      var count := 0;
      for i := 0 to |names|
        invariant OnlyInstance(old(rows), rows, owner, dst) && Overlaid(old(rows), rows, owner, src, dst, names[..i])
        invariant SameAt(old(rows), rows, (owner, IndexKey(dst)))
        invariant count == Present(old(rows), owner, src, names[..i])
        invariant forall n <- names[..i] :: Readable(old(rows), owner, src, n)
      {
        var name := names[i];
        assert names[..i + 1] == names[..i] + [name] && name in names;
        SourceKept(old(rows), rows, owner, src, dst, names[..i], name);
        PresentSnoc(old(rows), owner, src, names, i);
        if !Readable(rows, owner, src, name) {
          assert StoppedAt(old(rows), rows, owner, src, dst, i);
          return None;
        }
        var entry := EntryAt(rows, owner, src, name);
        OverlaidStep(old(rows), rows, owner, src, dst, names, i);
        if entry.Some? {
          ReadableIsNamed(rows, owner, src, name);
          EntryPut(rows, owner, dst, name, entry.value);
          assert EntryKey(dst, name) != IndexKey(dst);
          ghost var mid := rows;
          rows := rows[(owner, EntryKey(dst, name)) := EntryBlob(entry.value)];
          OnlyInstanceTransitive(old(rows), mid, rows, owner, dst);
          count := count + 1;
        }
      }
      assert names[..|names|] == names;
      if names != [] {
        ghost var mid := rows;
        SetIndexOnly(mid, owner, dst, names, false);
        rows := SetIndex(rows, owner, dst, names, false);
        OnlyInstanceTransitive(old(rows), mid, rows, owner, dst);
        IndexLeavesOverlay(old(rows), mid, owner, src, dst, names);
      }
      if old(Consistent(rows, owner, src) && Consistent(rows, owner, dst)) {
        CopyConsistentIff(old(rows), rows, owner, src, dst);
      }
      return Some(count);
    }

    /** Leaves no row of the instance. */
    method ForgetAll(owner: string, id: string)
      requires Consistent(rows, owner, id)
      modifies this
      ensures OnlyInstance(old(rows), rows, owner, id)
      ensures forall n :: (owner, EntryKey(id, n)) !in rows
    {
      hide EntryKey, Distinct;
      SetIndexOnly(rows, owner, id, [], true);
      NoIndexEntry(rows, owner, id);
      var names := Index(rows, owner, id).value;
      for i := 0 to |names|
        invariant OnlyInstance(old(rows), rows, owner, id) && OnlyEntries(rows, owner, id)
        invariant forall n :: EntryAt(rows, owner, id, n) == if n in names[..i] then None else EntryAt(old(rows), owner, id, n)
      {
        var name := names[i];
        assert names[..i + 1] == names[..i] + [name] && name in names;
        EntryDelete(rows, owner, id, name);
        EntriesStayDeleted(rows, owner, id, name);
        OnlyInstanceTransitive(old(rows), rows, rows - {(owner, EntryKey(id, name))}, owner, id);
        rows := rows - {(owner, EntryKey(id, name))};
      }
      assert names[..|names|] == names;
      ghost var mid := rows;
      SetIndexOnly(mid, owner, id, [], true);
      rows := rows - {(owner, IndexKey(id))};
      OnlyInstanceTransitive(old(rows), mid, rows, owner, id);
      forall n ensures (owner, EntryKey(id, n)) !in rows {
        assert n == INDEX || EntryAt(mid, owner, id, n).None?;
      }
    }

    /**
     * One operation of a run, on an instance of the list. `exact` is false when it is a copy that
     * leaves its destination an entry the index does not name, and then only that instance is off.
     */
    method Apply(op: Op, instances: seq<(string, string)>) returns (exact: bool)
      requires DotFree(instances) && Consistents(rows, instances) && Allowed(op, instances)
      modifies this
      ensures exact <==> (op.Copy? ==> Covered(old(rows), op.owner, op.src, op.id))
      ensures exact ==> Consistents(rows, instances)
      ensures !exact ==> OffAt(old(rows), rows, op, instances)
      ensures forall o, other | '.' !in other && !Touches(op, o, other, instances) :: Undisturbed(old(rows), rows, o, other)
    {
      hide EntryKey, Consistent, Undisturbed, OnlyInstance, Covered;
      NothingDisturbed(rows);
      exact := true;
      match op {
        case Put(owner, id, name, spec, urlsAllowed) =>
          var _ := PutServer(owner, id, name, spec, urlsAllowed);
        case PutPasted(owner, id, name, entry) =>
          var _ := PutVscode(owner, id, name, entry);
        case Render(owner, id, catalog, render) =>
          var _ := PutCatalog(owner, id, catalog, render);
        case Delete(owner, id, name) =>
          var _ := DeleteServer(owner, id, name);
        case DeletePasted(owner, id) =>
          var _ := DeleteVscode(owner, id);
        case DropCatalog(catalog) =>
          DeleteForCatalog(instances, catalog);
        case Copy(owner, src, id) =>
          exact := IndexCovered(rows, owner, src, id);
          CoveredByIndex(rows, owner, src, id);
          var _ := CopyAll(owner, src, id);
        case Forget(owner, id) =>
          ForgetAll(owner, id);
          NoRowsIsConsistent(rows, owner, id);
      }
      if !op.DropCatalog? {
        InstanceStep(old(rows), rows, op.owner, op.id, instances);
      }
    }

    /**
     * Any sequence of operations over any instances: every index stays duplicate-free and exact, and
     * an instance no operation is about keeps its entries and its index, listed here or not. The run
     * ends early exactly at a copy over entries its source does not name; `before` is what it met.
     */
    method Run(ops: seq<Op>, instances: seq<(string, string)>) returns (done: nat, ghost before: Rows)
      requires DotFree(instances) && Consistents(rows, instances) && forall op <- ops :: Allowed(op, instances)
      modifies this
      ensures done <= |ops|
      ensures done == |ops| ==> Consistents(rows, instances)
      ensures done < |ops| ==> ops[done].Copy? && Consistents(before, instances)
      ensures done < |ops| ==> !Covered(before, ops[done].owner, ops[done].src, ops[done].id) && OffAt(before, rows, ops[done], instances)
      ensures (forall k | 0 <= k < |ops| :: ops[k].Copy? ==> CopiesToFresh(old(rows), ops, k, instances)) ==> done == |ops|
      ensures Stays(old(rows), rows, ops, instances)
    {
      hide Consistent, Undisturbed, Allowed, Touches, DotFree, Consistents, Covered, OffAt, Stays, CopiesToFresh;
      NoOpStays(rows, instances);
      assert ops[..0] == [];
      done := 0;
      before := rows;
      for i := 0 to |ops|
        invariant Consistents(rows, instances) && Stays(old(rows), rows, ops[..i], instances)
      {
        before := rows;
        assert ops[i] in ops;
        var exact := Apply(ops[i], instances);
        StaysStep(old(rows), before, rows, ops, i, instances);
        if !exact {
          FreshIsCovered(old(rows), before, ops, i, instances);
          StaysLonger(old(rows), rows, ops, i + 1, instances);
          return i, before;
        }
      }
      assert ops[..|ops|] == ops;
      done := |ops|;
    }
  }

  /** What a run over several instances is made of. */
  datatype Op =
    | Put(owner: string, id: string, name: string, spec: Spec, urlsAllowed: bool)
    | PutPasted(owner: string, id: string, name: string, entry: Entry)
    | Render(owner: string, id: string, catalog: string, render: Option<Entry> -> Option<(string, Entry)>)
    | Delete(owner: string, id: string, name: string)
    | DeletePasted(owner: string, id: string)
    | DropCatalog(dropped: string)
    | Copy(owner: string, src: string, id: string)
    | Forget(owner: string, id: string)

  /** The operation is about listed instances and stores no server under the index's name. */
  ghost predicate Allowed(op: Op, instances: seq<(string, string)>) {
    && (!op.DropCatalog? ==> (op.owner, op.id) in instances)
    && (op.Put? || op.PutPasted? ==> op.name != INDEX)
    && (op.Render? ==> forall e: Option<Entry> :: op.render(e).Some? ==> op.render(e).value.0 != INDEX)
    && (op.Copy? ==> (op.owner, op.src) in instances)
  }

  /** The instances an operation may change. */
  predicate Touches(op: Op, owner: string, id: string, instances: seq<(string, string)>) {
    if op.DropCatalog? then (owner, id) in instances else (owner, id) == (op.owner, op.id)
  }

  predicate DotFree(instances: seq<(string, string)>) {
    && (forall i, j | 0 <= i < j < |instances| :: instances[i] != instances[j])
    && forall p <- instances :: '.' !in p.1
  }

  ghost predicate Consistents(rows: Rows, instances: seq<(string, string)>) {
    forall p <- instances :: Consistent(rows, p.0, p.1)
  }

  /** Exactly the destination of this copy has an index that is off. */
  ghost predicate OffAt(rows: Rows, next: Rows, op: Op, instances: seq<(string, string)>) {
    && op.Copy? && CopyOf(rows, next, op.owner, op.src, op.id)
    && forall p <- instances :: Consistent(next, p.0, p.1) <==> p != (op.owner, op.id)
  }

  /** Every instance that none of the operations is about is as it was. */
  ghost predicate Stays(rows: Rows, next: Rows, ops: seq<Op>, instances: seq<(string, string)>) {
    forall o, other | '.' !in other && Untouched(ops, o, other, instances) :: Undisturbed(rows, next, o, other)
  }

  ghost predicate Untouched(ops: seq<Op>, owner: string, id: string, instances: seq<(string, string)>) {
    forall op <- ops :: !Touches(op, owner, id, instances)
  }

  /** The copy's destination had no entry at the start and no operation before the copy is about it. */
  ghost predicate CopiesToFresh(rows: Rows, ops: seq<Op>, k: nat, instances: seq<(string, string)>)
    requires k < |ops| && ops[k].Copy?
  {
    && (forall n :: EntryAt(rows, ops[k].owner, ops[k].id, n).None?)
    && Untouched(ops[..k], ops[k].owner, ops[k].id, instances)
  }

  lemma NoOpStays(rows: Rows, instances: seq<(string, string)>)
    ensures Stays(rows, rows, [], instances)
  {
  }

  lemma StaysStep(rows: Rows, mid: Rows, next: Rows, ops: seq<Op>, i: nat, instances: seq<(string, string)>)
    requires i < |ops| && Stays(rows, mid, ops[..i], instances)
    requires forall o, other | '.' !in other && !Touches(ops[i], o, other, instances) :: Undisturbed(mid, next, o, other)
    ensures Stays(rows, next, ops[..i + 1], instances)
  {
    hide Undisturbed, Touches;
    forall o, other | '.' !in other && Untouched(ops[..i + 1], o, other, instances) ensures Undisturbed(rows, next, o, other) {
      assert forall op <- ops[..i] :: op in ops[..i + 1];
      assert ops[i] in ops[..i + 1];
      assert Untouched(ops[..i], o, other, instances);
      UndisturbedTransitive(rows, mid, next, o, other);
    }
  }

  lemma StaysLonger(rows: Rows, next: Rows, ops: seq<Op>, i: nat, instances: seq<(string, string)>)
    requires i <= |ops| && Stays(rows, next, ops[..i], instances)
    ensures Stays(rows, next, ops, instances)
  {
    hide Undisturbed, Touches;
    forall o, other | '.' !in other && Untouched(ops, o, other, instances) ensures Undisturbed(rows, next, o, other) {
      assert forall op <- ops[..i] :: op in ops;
      assert Untouched(ops[..i], o, other, instances);
    }
  }

  /** A copy to an instance that is still empty when it is reached is covered. */
  lemma FreshIsCovered(rows: Rows, mid: Rows, ops: seq<Op>, i: nat, instances: seq<(string, string)>)
    requires i < |ops| && ops[i].Copy? && Stays(rows, mid, ops[..i], instances) && Consistents(mid, instances)
    requires DotFree(instances) && Allowed(ops[i], instances)
    ensures CopiesToFresh(rows, ops, i, instances) ==> Covered(mid, ops[i].owner, ops[i].src, ops[i].id)
  {
    hide EntryAt, Touches;
    if CopiesToFresh(rows, ops, i, instances) {
      assert Undisturbed(rows, mid, ops[i].owner, ops[i].id);
      assert Consistent(mid, ops[i].owner, ops[i].src);
    }
  }

  predicate IndexCovered(rows: Rows, owner: string, src: string, dst: string) {
    var from, to := Index(rows, owner, src), Index(rows, owner, dst);
    from == Some([]) || (from.Some? && to.Some? && forall n <- to.value :: n in from.value)
  }

  lemma CoveredByIndex(rows: Rows, owner: string, src: string, dst: string)
    requires Consistent(rows, owner, src) && Consistent(rows, owner, dst)
    ensures IndexCovered(rows, owner, src, dst) <==> Covered(rows, owner, src, dst)
  {
    hide EntryAt, Distinct;
  }

  /** An operation on one instance leaves the others alone and consistent, so it decides for them all. */
  lemma InstanceStep(rows: Rows, next: Rows, owner: string, id: string, instances: seq<(string, string)>)
    requires DotFree(instances) && Consistents(rows, instances) && (owner, id) in instances
    requires OnlyInstance(rows, next, owner, id)
    ensures forall p <- instances | p != (owner, id) :: Consistent(next, p.0, p.1)
    ensures Consistents(next, instances) <==> Consistent(next, owner, id)
    ensures forall o, other | '.' !in other && (o, other) != (owner, id) :: Undisturbed(rows, next, o, other)
  {
    hide EntryKey, Consistent, OnlyInstance, EntryAt, Index;
    forall o, other | '.' !in other && (o, other) != (owner, id)
      ensures Undisturbed(rows, next, o, other) && (Consistent(rows, o, other) ==> Consistent(next, o, other))
    {
      OthersUntouched(rows, next, owner, id, o, other);
    }
    forall p | p in instances && p != (owner, id) ensures Consistent(next, p.0, p.1) {
      assert Consistent(rows, p.0, p.1);
    }
    assert (owner, id) in instances;
  }

  lemma UndisturbedTransitive(a: Rows, b: Rows, c: Rows, owner: string, id: string)
    requires Undisturbed(a, b, owner, id) && Undisturbed(b, c, owner, id)
    ensures Undisturbed(a, c, owner, id)
  {
    hide EntryAt, Index;
  }

  predicate Bound(entry: Option<Entry>, catalog: string) {
    entry.Some? && entry.value.catalog == Some(catalog)
  }

  /** Exactly the entries bound to the catalog are gone. */
  ghost predicate Unbound(rows: Rows, next: Rows, owner: string, id: string, catalog: string) {
    forall n ::
      var entry := EntryAt(rows, owner, id, n);
      EntryAt(next, owner, id, n) == if entry.Some? && entry.value.catalog == Some(catalog) then None else entry
  }

  /** Neither the entries nor the index of an instance changed. */
  ghost predicate Undisturbed(rows: Rows, next: Rows, owner: string, id: string) {
    SameEntries(rows, next, owner, id) && Index(next, owner, id) == Index(rows, owner, id)
  }

  lemma NothingDisturbed(rows: Rows)
    ensures forall o, other :: Undisturbed(rows, rows, o, other)
  {
  }

  lemma UndisturbedStep(rows: Rows, mid: Rows, next: Rows, owner: string, id: string, o: string, other: string)
    requires Undisturbed(rows, mid, o, other) && OnlyInstance(mid, next, owner, id)
    requires '.' !in id && '.' !in other && (o, other) != (owner, id)
    ensures Undisturbed(rows, next, o, other)
  {
    hide EntryKey, EntryAt, Index;
    OthersUntouched(mid, next, owner, id, o, other);
  }

  ghost predicate SameEntries(rows: Rows, next: Rows, owner: string, id: string) {
    forall n :: EntryAt(next, owner, id, n) == EntryAt(rows, owner, id, n)
  }

  ghost predicate OnlyEntries(rows: Rows, owner: string, id: string) {
    forall n | n != INDEX && (owner, EntryKey(id, n)) in rows :: rows[(owner, EntryKey(id, n))].EntryBlob?
  }

  function NamesOf(specs: seq<(string, Entry)>): seq<string> {
    if specs == [] then [] else NamesOf(specs[..|specs| - 1]) + [specs[|specs| - 1].0]
  }

  lemma NothingListed()
    ensures Distinct([])
  {
  }

  lemma DistinctSnoc(names: seq<string>, name: string)
    requires Distinct(names) && name !in names
    ensures Distinct(names + [name])
  {
  }

  lemma FreshInPrefix(names: seq<string>, i: nat)
    requires i < |names| && Distinct(names)
    ensures names[i] !in names[..i]
  {
  }

  lemma EntriesStayDeleted(rows: Rows, owner: string, id: string, name: string)
    requires OnlyEntries(rows, owner, id)
    ensures OnlyEntries(rows - {(owner, EntryKey(id, name))}, owner, id)
  {
    hide EntryKey;
  }

  lemma EntriesStayPut(rows: Rows, owner: string, id: string, name: string, entry: Entry)
    requires OnlyEntries(rows, owner, id)
    ensures OnlyEntries(rows[(owner, EntryKey(id, name)) := EntryBlob(entry)], owner, id)
  {
    hide EntryKey;
  }

  /** An index written over existing entries is exact precisely when it is distinct, complete and does not list itself. */
  lemma IndexWritten(rows: Rows, owner: string, id: string, names: seq<string>)
    requires OnlyEntries(rows, owner, id)
    requires forall n <- names | n != INDEX :: EntryAt(rows, owner, id, n).Some?
    ensures var next := SetIndex(rows, owner, id, names, false);
            && OnlyInstance(rows, next, owner, id) && Index(next, owner, id) == Some(names)
            && EntryAt(next, owner, id, INDEX).None?
            && (forall n | n != INDEX :: EntryAt(next, owner, id, n) == EntryAt(rows, owner, id, n))
            && (Consistent(next, owner, id) <==>
                  Distinct(names) && INDEX !in names && forall n | n != INDEX && EntryAt(rows, owner, id, n).Some? :: n in names)
  {
    KeysInjective(id);
    hide EntryKey, Distinct;
    var next := SetIndex(rows, owner, id, names, false);
    SetIndexOnly(rows, owner, id, names, false);
    assert forall n | n != INDEX :: SameAt(rows, next, (owner, EntryKey(id, n)));
  }

  /** The entry a list of servers gives a name: the last one under it. */
  function LastNamed(specs: seq<(string, Entry)>, name: string): Option<Entry> {
    if specs == [] then None else
    var last := specs[|specs| - 1];
    if last.0 == name then Some(last.1) else LastNamed(specs[..|specs| - 1], name)
  }

  /** Every given name has the last entry given for it, and every other name the entry it had. */
  ghost predicate Given(rows: Rows, next: Rows, owner: string, id: string, specs: seq<(string, Entry)>) {
    forall n | n != INDEX :: EntryAt(next, owner, id, n) ==
      if LastNamed(specs, n).Some? then LastNamed(specs, n) else EntryAt(rows, owner, id, n)
  }

  lemma GivenStep(rows: Rows, mid: Rows, owner: string, id: string, specs: seq<(string, Entry)>, i: nat)
    requires i < |specs| && Given(rows, mid, owner, id, specs[..i])
    ensures Given(rows, mid[(owner, EntryKey(id, specs[i].0)) := EntryBlob(specs[i].1)], owner, id, specs[..i + 1])
  {
    hide EntryKey, LastNamed, EntryAt;
    LastNamedSnoc(specs, i);
    EntryPutAny(mid, owner, id, specs[i].0, specs[i].1);
    var next, done, all := mid[(owner, EntryKey(id, specs[i].0)) := EntryBlob(specs[i].1)], specs[..i], specs[..i + 1];
    forall n | n != INDEX
      ensures EntryAt(next, owner, id, n) == if LastNamed(all, n).Some? then LastNamed(all, n) else EntryAt(rows, owner, id, n)
    {
      assert EntryAt(mid, owner, id, n) == if LastNamed(done, n).Some? then LastNamed(done, n) else EntryAt(rows, owner, id, n);
      assert LastNamed(all, n) == if n == specs[i].0 then Some(specs[i].1) else LastNamed(done, n);
    }
  }

  /** Every entry that is there is given again. */
  ghost predicate Covers(rows: Rows, owner: string, id: string, specs: seq<(string, Entry)>) {
    forall n | EntryAt(rows, owner, id, n).Some? :: n in NamesOf(specs)
  }

  lemma NothingNamed()
    ensures forall n :: LastNamed([], n).None?
  {
  }

  lemma LastNamedSnoc(specs: seq<(string, Entry)>, i: nat)
    requires i < |specs|
    ensures NamesOf(specs[..i + 1]) == NamesOf(specs[..i]) + [specs[i].0]
    ensures forall n :: LastNamed(specs[..i + 1], n) == if n == specs[i].0 then Some(specs[i].1) else LastNamed(specs[..i], n)
  {
    var t := specs[..i + 1];
    assert t[|t| - 1] == specs[i] && t[..|t| - 1] == specs[..i];
    forall n ensures LastNamed(t, n) == if n == specs[i].0 then Some(specs[i].1) else LastNamed(specs[..i], n) {
      assert LastNamed(t, n) == if t[|t| - 1].0 == n then Some(t[|t| - 1].1) else LastNamed(t[..|t| - 1], n);
    }
  }

  lemma {:induction false} NamedIffLast(specs: seq<(string, Entry)>)
    ensures forall n :: n in NamesOf(specs) <==> LastNamed(specs, n).Some?
  {
    if specs != [] {
      NamedIffLast(specs[..|specs| - 1]);
    }
  }

  /** Writing an entry changes no other name's, even under the index's own name. */
  lemma EntryPutAny(rows: Rows, owner: string, id: string, name: string, entry: Entry)
    ensures var next := rows[(owner, EntryKey(id, name)) := EntryBlob(entry)];
            && OnlyInstance(rows, next, owner, id)
            && forall n :: EntryAt(next, owner, id, n) == if n == name then Some(entry) else EntryAt(rows, owner, id, n)
  {
    KeysInjective(id);
    hide EntryKey;
    var next := rows[(owner, EntryKey(id, name)) := EntryBlob(entry)];
    assert forall n | n != name :: SameAt(rows, next, (owner, EntryKey(id, n)));
    assert forall o, key | o != owner || key != EntryKey(id, name) :: SameAt(rows, next, (o, key));
  }

  lemma NoRowsIsConsistent(rows: Rows, owner: string, id: string)
    requires forall n :: (owner, EntryKey(id, n)) !in rows
    ensures Consistent(rows, owner, id)
  {
    hide EntryKey;
  }

  function EntriesStored(rows: Rows, owner: string, id: string, previous: Option<string>, name: string, entry: Entry): Rows {
    var put := rows[(owner, EntryKey(id, name)) := EntryBlob(entry)];
    if previous.Some? && previous.value != name then put - {(owner, EntryKey(id, previous.value))} else put
  }

  function NamesStored(names: seq<string>, previous: Option<string>, name: string): seq<string> {
    WithName(if previous.Some? && previous.value != name then Without(names, previous.value) else names, name)
  }

  lemma NamesStoredIs(names: seq<string>, previous: Option<string>, name: string)
    ensures forall n :: n in NamesStored(names, previous, name) <==> n == name || (n in names && Some(n) != previous)
    ensures Distinct(names) ==> Distinct(NamesStored(names, previous, name))
  {
    var kept := if previous.Some? && previous.value != name then Without(names, previous.value) else names;
    if previous.Some? {
      WithoutIs(names, previous.value);
    }
    WithNameIs(kept, name);
  }

  lemma EntriesStoredIs(rows: Rows, owner: string, id: string, previous: Option<string>, name: string, entry: Entry)
    requires Consistent(rows, owner, id) && name != INDEX && previous != Some(INDEX)
    ensures var next := EntriesStored(rows, owner, id, previous, name, entry);
            && OnlyInstance(rows, next, owner, id)
            && (forall n :: EntryAt(next, owner, id, n) ==
                  if n == name then Some(entry) else if Some(n) == previous then None else EntryAt(rows, owner, id, n))
            && forall n | n != INDEX && (owner, EntryKey(id, n)) in next :: next[(owner, EntryKey(id, n))].EntryBlob?
  {
    hide EntryKey, Consistent;
    EntryPut(rows, owner, id, name, entry);
    EntriesStayEntries(rows, owner, id, name, entry);
    var put := rows[(owner, EntryKey(id, name)) := EntryBlob(entry)];
    if previous.Some? && previous.value != name {
      EntryDelete(put, owner, id, previous.value);
      OnlyInstanceTransitive(rows, put, EntriesStored(rows, owner, id, previous, name, entry), owner, id);
    }
  }

  /** Storing a rendered entry keeps the index exact unless the entry took the index's own name. */
  lemma StoredAll(rows: Rows, owner: string, id: string, previous: Option<string>, name: string, entry: Entry)
    requires Consistent(rows, owner, id) && (previous.Some? ==> EntryAt(rows, owner, id, previous.value).Some?)
    ensures var next := SetIndex(EntriesStored(rows, owner, id, previous, name, entry), owner, id,
                                 NamesStored(Index(rows, owner, id).value, previous, name), false);
            && (Consistent(next, owner, id) <==> name != INDEX) && OnlyInstance(rows, next, owner, id)
            && (name != INDEX ==>
                  forall n :: EntryAt(next, owner, id, n) ==
                    if n == name then Some(entry) else if Some(n) == previous then None else EntryAt(rows, owner, id, n))
  {
    hide EntryKey;
    NoIndexEntry(rows, owner, id);
    var mid, names := EntriesStored(rows, owner, id, previous, name, entry), NamesStored(Index(rows, owner, id).value, previous, name);
    NamesStoredIs(Index(rows, owner, id).value, previous, name);
    SetIndexOnly(mid, owner, id, names, false);
    if name != INDEX {
      EntriesStoredIs(rows, owner, id, previous, name, entry);
      IndexRestored(mid, owner, id, names, false);
      NoIndexEntry(SetIndex(mid, owner, id, names, false), owner, id);
    } else {
      IndexEntryStored(rows, owner, id, previous, entry);
      assert EntryAt(SetIndex(mid, owner, id, names, false), owner, id, INDEX).None?;
    }
    OnlyInstanceTransitive(rows, mid, SetIndex(mid, owner, id, names, false), owner, id);
  }

  lemma IndexEntryStored(rows: Rows, owner: string, id: string, previous: Option<string>, entry: Entry)
    ensures OnlyInstance(rows, EntriesStored(rows, owner, id, previous, INDEX, entry), owner, id)
  {
    KeysInjective(id);
    hide EntryKey;
    var next := EntriesStored(rows, owner, id, previous, INDEX, entry);
    assert forall o, key | o != owner || !StartsWith(key, EntryKey(id, "")) :: SameAt(rows, next, (o, key));
  }

  /** The entry bound to the catalog was rendered anew under `name`, and no other entry changed. */
  ghost predicate CatalogPut(rows: Rows, next: Rows, owner: string, id: string, catalog: string,
                             previous: Option<string>, name: string, render: Option<Entry> -> Option<(string, Entry)>) {
    var was := if previous.Some? then EntryAt(rows, owner, id, previous.value) else None;
    && (previous.Some? ==> was.Some? && was.value.catalog == Some(catalog))
    && (previous.None? ==> forall n | EntryAt(rows, owner, id, n).Some? :: EntryAt(rows, owner, id, n).value.catalog != Some(catalog))
    && render(was).Some? && render(was).value.0 == name
    && forall n :: EntryAt(next, owner, id, n) ==
         if n == name then Some(render(was).value.1) else if Some(n) == previous then None else EntryAt(rows, owner, id, n)
  }

  /** Overwriting the index row with an entry leaves no readable index, and touches nothing else. */
  lemma OwnKeyOnly(rows: Rows, owner: string, id: string, blob: Blob)
    requires blob.EntryBlob?
    ensures var next := rows[(owner, IndexKey(id)) := blob]; !Consistent(next, owner, id) && OnlyInstance(rows, next, owner, id)
  {
    KeysInjective(id);
    hide EntryKey;
    var next := rows[(owner, IndexKey(id)) := blob];
    assert forall o, key | o != owner || key != IndexKey(id) :: SameAt(rows, next, (o, key));
  }

  lemma EntriesStayEntries(rows: Rows, owner: string, id: string, name: string, entry: Entry)
    requires Consistent(rows, owner, id)
    ensures var next := rows[(owner, EntryKey(id, name)) := EntryBlob(entry)];
            forall n | n != INDEX && (owner, EntryKey(id, n)) in next :: next[(owner, EntryKey(id, n))].EntryBlob?
  {
    hide EntryKey;
  }

  /** Writing back the index that is there is no change. */
  lemma IndexUnchanged(rows: Rows, owner: string, id: string)
    requires Index(rows, owner, id).Some? && (owner, IndexKey(id)) in rows
    ensures SetIndex(rows, owner, id, Index(rows, owner, id).value, false) == rows
  {
    hide EntryKey;
  }

  lemma SetIndexOnly(rows: Rows, owner: string, id: string, names: seq<string>, dropEmpty: bool)
    ensures OnlyInstance(rows, SetIndex(rows, owner, id, names, dropEmpty), owner, id) && OnlyInstance(rows, rows, owner, id)
  {
    KeysInjective(id);
    hide EntryKey;
    var next := SetIndex(rows, owner, id, names, dropEmpty);
    assert forall o, key | o != owner || key != IndexKey(id) :: SameAt(rows, next, (o, key));
  }

  // ----- Copying -----

  /** The row under this name, if there is one, parses as an entry. */
  predicate Readable(rows: Rows, owner: string, id: string, name: string) {
    (owner, EntryKey(id, name)) in rows ==> rows[(owner, EntryKey(id, name))].EntryBlob?
  }

  /** The index and every row it lists parse. */
  predicate Copyable(rows: Rows, owner: string, id: string) {
    Index(rows, owner, id).Some? && forall n <- Index(rows, owner, id).value :: Readable(rows, owner, id, n)
  }

  /** How many of the names have an entry. */
  function Present(rows: Rows, owner: string, id: string, names: seq<string>): nat {
    if names == [] then 0 else
    Present(rows, owner, id, names[..|names| - 1]) + if EntryAt(rows, owner, id, names[|names| - 1]).Some? then 1 else 0
  }

  /** The destination's row of a name is the source's entry if that is named, and is as it was if not. */
  ghost predicate Overlaid(rows: Rows, next: Rows, owner: string, src: string, dst: string, names: seq<string>) {
    forall n | n != INDEX :: LaidAt(rows, next, owner, src, dst, names, n)
  }

  predicate LaidAt(rows: Rows, next: Rows, owner: string, src: string, dst: string, names: seq<string>, n: string) {
    if n in names && EntryAt(rows, owner, src, n).Some?
    then (owner, EntryKey(dst, n)) in next && next[(owner, EntryKey(dst, n))] == EntryBlob(EntryAt(rows, owner, src, n).value)
    else SameAt(rows, next, (owner, EntryKey(dst, n)))
  }

  /** All of what a copy does; a source without names leaves everything as it is. */
  ghost predicate CopyOf(rows: Rows, next: Rows, owner: string, src: string, dst: string) {
    && Index(rows, owner, src).Some?
    && var names := Index(rows, owner, src).value;
    && OnlyInstance(rows, next, owner, dst) && Overlaid(rows, next, owner, src, dst, names)
    && (names == [] ==> SameAt(rows, next, (owner, IndexKey(dst))))
    && (names != [] ==> (owner, IndexKey(dst)) in next && next[(owner, IndexKey(dst))] == IndexBlob(names))
  }

  /** The copy met a row that does not parse, after laying down the entries listed before it. */
  ghost predicate StoppedAt(rows: Rows, next: Rows, owner: string, src: string, dst: string, k: nat) {
    && Index(rows, owner, src).Some? && k < |Index(rows, owner, src).value|
    && var names := Index(rows, owner, src).value;
    && !Readable(rows, owner, src, names[k]) && (forall n <- names[..k] :: Readable(rows, owner, src, n))
    && Overlaid(rows, next, owner, src, dst, names[..k]) && SameAt(rows, next, (owner, IndexKey(dst)))
  }

  /** The source names nothing, or everything the destination has. */
  ghost predicate Covered(rows: Rows, owner: string, src: string, dst: string) {
    && Index(rows, owner, src).Some?
    && (Index(rows, owner, src).value == [] || forall n | EntryAt(rows, owner, dst, n).Some? :: n in Index(rows, owner, src).value)
  }

  lemma NothingLaid(rows: Rows, owner: string, src: string, dst: string)
    ensures Overlaid(rows, rows, owner, src, dst, []) && OnlyInstance(rows, rows, owner, dst)
    ensures Present(rows, owner, src, []) == 0
  {
  }

  lemma PresentSnoc(rows: Rows, owner: string, id: string, names: seq<string>, i: nat)
    requires i < |names|
    ensures Present(rows, owner, id, names[..i + 1]) ==
            Present(rows, owner, id, names[..i]) + if EntryAt(rows, owner, id, names[i]).Some? then 1 else 0
  {
    assert names[..i + 1][..i] == names[..i];
  }

  lemma {:induction false} AllPresent(rows: Rows, owner: string, id: string, names: seq<string>)
    requires forall n <- names :: EntryAt(rows, owner, id, n).Some?
    ensures Present(rows, owner, id, names) == |names|
  {
    hide EntryAt;
    if names != [] {
      AllPresent(rows, owner, id, names[..|names| - 1]);
    }
  }

  lemma ConsistentIsCopyable(rows: Rows, owner: string, id: string)
    requires Consistent(rows, owner, id)
    ensures Copyable(rows, owner, id)
    ensures Present(rows, owner, id, Index(rows, owner, id).value) == |Index(rows, owner, id).value|
  {
    hide EntryKey, Distinct, Present;
    AllPresent(rows, owner, id, Index(rows, owner, id).value);
  }

  /** The index row is no entry while it parses as an index. */
  lemma ReadableIsNamed(rows: Rows, owner: string, id: string, name: string)
    requires Index(rows, owner, id).Some? && EntryAt(rows, owner, id, name).Some?
    ensures name != INDEX
  {
  }

  /** Copying changes no row of the source, even onto itself. */
  lemma SourceKept(rows: Rows, next: Rows, owner: string, src: string, dst: string, names: seq<string>, n: string)
    requires '.' !in src && '.' !in dst && OnlyInstance(rows, next, owner, dst)
    requires Overlaid(rows, next, owner, src, dst, names) && (src == dst ==> SameAt(rows, next, (owner, IndexKey(dst))))
    ensures SameAt(rows, next, (owner, EntryKey(src, n))) && SameAt(rows, next, (owner, IndexKey(src)))
  {
    hide EntryKey;
    if src == dst {
      assert n != INDEX ==> LaidAt(rows, next, owner, src, dst, names, n);
    } else {
      if StartsWith(EntryKey(src, n), EntryKey(dst, "")) {
        InstancesAreApart(dst, src, n);
      }
      if StartsWith(IndexKey(src), EntryKey(dst, "")) {
        InstancesAreApart(dst, src, INDEX);
      }
    }
  }

  lemma OverlaidStep(rows: Rows, mid: Rows, owner: string, src: string, dst: string, names: seq<string>, i: nat)
    requires i < |names| && Overlaid(rows, mid, owner, src, dst, names[..i])
    ensures var entry := EntryAt(rows, owner, src, names[i]);
            Overlaid(rows, if entry.Some? then mid[(owner, EntryKey(dst, names[i])) := EntryBlob(entry.value)] else mid,
                     owner, src, dst, names[..i + 1])
  {
    KeysInjective(dst);
    hide EntryKey, EntryAt;
    var entry := EntryAt(rows, owner, src, names[i]);
    var next := if entry.Some? then mid[(owner, EntryKey(dst, names[i])) := EntryBlob(entry.value)] else mid;
    var laid := names[..i + 1];
    assert laid == names[..i] + [names[i]];
    forall n | n != INDEX ensures LaidAt(rows, next, owner, src, dst, laid, n) {
      assert LaidAt(rows, mid, owner, src, dst, names[..i], n);
    }
  }

  lemma IndexLeavesOverlay(rows: Rows, mid: Rows, owner: string, src: string, dst: string, names: seq<string>)
    requires Overlaid(rows, mid, owner, src, dst, names)
    ensures Overlaid(rows, SetIndex(mid, owner, dst, names, false), owner, src, dst, names)
  {
    KeysInjective(dst);
    hide EntryKey, EntryAt;
    forall n | n != INDEX ensures LaidAt(rows, SetIndex(mid, owner, dst, names, false), owner, src, dst, names, n) {
      assert LaidAt(rows, mid, owner, src, dst, names, n);
      assert EntryKey(dst, n) != IndexKey(dst);
    }
  }

  /** A copy leaves the destination's index exact precisely when the source covers it. */
  lemma CopyConsistentIff(rows: Rows, next: Rows, owner: string, src: string, dst: string)
    requires CopyOf(rows, next, owner, src, dst) && Consistent(rows, owner, src) && Consistent(rows, owner, dst)
    ensures Consistent(next, owner, dst) <==> Covered(rows, owner, src, dst)
  {
    hide EntryKey, Distinct, OnlyInstance;
    NoIndexEntry(rows, owner, src);
    NoIndexEntry(rows, owner, dst);
    var names := Index(rows, owner, src).value;
    forall n | n != INDEX
      ensures EntryAt(next, owner, dst, n) == if n in names then EntryAt(rows, owner, src, n) else EntryAt(rows, owner, dst, n)
    {
      assert LaidAt(rows, next, owner, src, dst, names, n);
    }
    forall n | n != INDEX && (owner, EntryKey(dst, n)) in next ensures next[(owner, EntryKey(dst, n))].EntryBlob? {
      assert LaidAt(rows, next, owner, src, dst, names, n);
    }
  }

  /** Copying a second time changes nothing. */
  lemma CopyAgain(rows: Rows, once: Rows, twice: Rows, owner: string, src: string, dst: string)
    requires '.' !in src && '.' !in dst
    requires CopyOf(rows, once, owner, src, dst) && CopyOf(once, twice, owner, src, dst)
    ensures twice == once
  {
    hide EntryKey, OnlyInstance, Overlaid, LaidAt;
    var names := Index(rows, owner, src).value;
    SourceKept(rows, once, owner, src, dst, names, INDEX);
    forall n | n != INDEX ensures SameAt(once, twice, (owner, EntryKey(dst, n))) {
      SourceKept(rows, once, owner, src, dst, names, n);
      LaidTwice(rows, once, twice, owner, src, dst, names, n);
    }
    SameRows(once, twice, owner, dst);
  }

  lemma LaidTwice(rows: Rows, once: Rows, twice: Rows, owner: string, src: string, dst: string, names: seq<string>, n: string)
    requires n != INDEX && SameAt(rows, once, (owner, EntryKey(src, n)))
    requires Overlaid(rows, once, owner, src, dst, names) && Overlaid(once, twice, owner, src, dst, names)
    ensures SameAt(once, twice, (owner, EntryKey(dst, n)))
  {
    hide EntryKey;
    assert LaidAt(rows, once, owner, src, dst, names, n) && LaidAt(once, twice, owner, src, dst, names, n);
  }

  lemma SameRows(rows: Rows, next: Rows, owner: string, id: string)
    requires OnlyInstance(rows, next, owner, id) && forall n :: SameAt(rows, next, (owner, EntryKey(id, n)))
    ensures next == rows
  {
    forall k | k in rows || k in next ensures SameAt(rows, next, k) {
      SameRow(rows, next, owner, id, k);
    }
    assert next.Keys == rows.Keys by {
      forall k | k in rows.Keys || k in next.Keys ensures k in rows.Keys && k in next.Keys {
        assert SameAt(rows, next, k);
      }
    }
  }

  lemma SameRow(rows: Rows, next: Rows, owner: string, id: string, k: (string, string))
    requires OnlyInstance(rows, next, owner, id) && forall n :: SameAt(rows, next, (owner, EntryKey(id, n)))
    ensures SameAt(rows, next, k)
  {
    if k.0 == owner && StartsWith(k.1, EntryKey(id, "")) {
      var n := k.1[|id| + 5..];
      assert k.1 == EntryKey(id, "") + n == EntryKey(id, n);
      assert SameAt(rows, next, (owner, EntryKey(id, n)));
    } else {
      assert SameAt(rows, next, (k.0, k.1));
    }
  }

  /** One server: its entry and an index of its name. */
  function OneServer(owner: string, id: string, name: string, entry: Entry): Rows {
    map[(owner, EntryKey(id, name)) := EntryBlob(entry), (owner, IndexKey(id)) := IndexBlob([name])]
  }

  /** Copying one server over another: the other's entry stays, and the index no longer names it. */
  lemma StrayEntryStays(rows: Rows, next: Rows, owner: string, src: string, dst: string, a: string, b: string, entry: Entry)
    requires '.' !in src && '.' !in dst && src != dst && a != b && a != INDEX && b != INDEX
    requires rows == OneServer(owner, src, a, entry) + OneServer(owner, dst, b, entry) && CopyOf(rows, next, owner, src, dst)
    ensures Consistent(rows, owner, src) && Consistent(rows, owner, dst)
    ensures EntryAt(next, owner, dst, b) == Some(entry) && Index(next, owner, dst) == Some([a])
  {
    hide EntryKey;
    KeysApart(src, dst);
    OneServerIsConsistent(rows, owner, src, dst, a, b, entry);
    OneServerIsConsistent(rows, owner, dst, src, b, a, entry);
    assert LaidAt(rows, next, owner, src, dst, [a], b);
  }

  lemma OneServerIsConsistent(rows: Rows, owner: string, id: string, other: string, name: string, name2: string, entry: Entry)
    requires '.' !in id && '.' !in other && id != other && name != INDEX && name2 != INDEX
    requires forall k :: k in rows <==> k in OneServer(owner, id, name, entry) || k in OneServer(owner, other, name2, entry)
    requires forall k | k in OneServer(owner, id, name, entry) :: rows[k] == OneServer(owner, id, name, entry)[k]
    ensures Consistent(rows, owner, id) && Index(rows, owner, id) == Some([name]) && EntryAt(rows, owner, id, name) == Some(entry)
  {
    KeysInjective(id);
    KeysApart(id, other);
    hide EntryKey;
  }

  lemma KeysApart(id: string, other: string)
    requires '.' !in id && '.' !in other && id != other
    ensures forall n, m :: EntryKey(id, n) != EntryKey(other, m)
  {
    KeysInjective(id);
    hide EntryKey;
    forall n, m ensures EntryKey(id, n) != EntryKey(other, m) {
      if EntryKey(id, n) == EntryKey(other, m) {
        InstancesAreApart(id, other, m);
      }
    }
  }
}
