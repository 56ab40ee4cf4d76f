/** The notification handler: a "Complete" notification carries the URL of a
    new video; its stub, without the leading art character `d`, selects the
    scroll, the table named for it, and the record its key selects there;
    that record's variations are then reset (stub ending in `z`) or merged
    with the URL. The decision is a function of the table contents; the two
    handler methods carry it out on the tables in place. */
module Dispatcher {
  import opened Wrappers
  import opened Errors
  import opened StemCodec
  import opened Taxonomy
  import opened Catalog
  import opened StubOrder
  import opened KeyBuilder
  import opened Variations
  import opened Naming

  /** `REMOVE_ALL_TECHNIQUE_VARIATIONS`: the last stem character that asks
      for the variations to be emptied. */
  const ResetMarker: char := 'z'

  /** What one notification does to the store. */
  datatype Action =
    | Ignore
      /** Empty the variations of the record at `slot` of table `table`. */
    | Reset(table: string, slot: nat)
      /** Merge the URL into the variations of that record. */
    | Update(table: string, slot: nat)

  /** The decision of `handle_danzan_ryu` for the stem without its art
      character, against the table contents. `resolve` stands for the
      `list_tables` lookup of the first table name after a prefix. */
  function PlanDanzanRyu(stem: string, resolve: string -> Option<string>,
                         tables: map<string, seq<Item>>): (r: Result<Action, Error>)
    ensures r.Ok? ==> r.value.Reset? || r.value.Update?
    ensures r.Ok? ==> r.value.table in tables && r.value.slot < |tables[r.value.table]|
    ensures r.Ok? ==> (r.value.Reset? <==> EndsWith(stem, ResetMarker))
    ensures stem == [] ==> r == Err(StemTooShort(stem, 0))
    ensures stem != [] && GetScrollId(stem[0]).None? ==> r == Err(UnknownScrollCode(stem[0]))
    ensures r.Err? ==> !r.error.UnknownScroll?
  {
    if stem == [] then Err(StemTooShort(stem, 0))
    else match GetScrollId(stem[0])
      case None => Err(UnknownScrollCode(stem[0]))
      case Some(scroll) =>
        var prefix := TableNamePrefix(scroll);
        match resolve(prefix)
        case None => Err(NoTableForScroll(prefix))
        case Some(name) =>
          ScrollIdsAreHandled(stem[0], stem, []);
          match DeriveKey(scroll, stem)
          case Err(e) => Err(e)
          case Ok(_) =>
            if name !in tables then Err(TableNotFound(name))
            else
              match HandleScroll(scroll, stem, tables[name])
              case Err(e) => Err(e)
              case Ok(slot) =>
                Ok(if EndsWith(stem, ResetMarker) then Reset(name, slot) else Update(name, slot))
  }

  /** The decision of `lambda_handler` for a notification with this subject
      and this `hlsUrl`. */
  function Plan(subject: string, fileUrl: string, resolve: string -> Option<string>,
                tables: map<string, seq<Item>>): (r: Result<Action, Error>)
    ensures r == Ok(Ignore) <==> !Contains(subject, "Complete")
    ensures Contains(subject, "Complete") && !StartsWith(GetStub(fileUrl), 'd') ==>
              r == Err(InvalidFileName(GetStub(fileUrl)))
    ensures r.Err? ==> !r.error.UnknownScroll?
  {
    if !Contains(subject, "Complete") then Ok(Ignore)
    else
      var fileStem := GetStub(fileUrl);
      if !StartsWith(fileStem, 'd') then Err(InvalidFileName(fileStem))
      else PlanDanzanRyu(RemoveChar(fileStem, 0), resolve, tables)
  }

  /** The record the action writes back in place of item: the same
      attributes, and variations emptied or merged with the URL. After an
      update the URL is listed, every entry with its stub is the URL, the
      list is in stub order, and it grew by one exactly when the stub was
      new. */
  function Rewritten(a: Action, fileUrl: string, item: Item): (r: Item)
    requires !a.Ignore?
    ensures r.attributes == item.attributes
    ensures a.Reset? ==> r.variations == []
    ensures a.Update? ==> r.variations == Reconcile(item.variations, fileUrl, GetStub)
    ensures a.Update? ==> fileUrl in r.variations
    ensures a.Update? ==> forall x :: x in r.variations && GetStub(x) == GetStub(fileUrl) ==> x == fileUrl
    ensures a.Update? ==> SortedBy(r.variations, GetStub)
    ensures a.Update? ==> |r.variations| == if GetStub(fileUrl) in Keys(item.variations, GetStub)
                                           then |item.variations| else |item.variations| + 1
  {
    if a.Reset? then Item(item.attributes, [])
    else
      ReconcileReplaces(item.variations, fileUrl, GetStub);
      ReconcileSorted(item.variations, fileUrl, GetStub);
      ReconcileLength(item.variations, fileUrl, GetStub);
      Item(item.attributes, Reconcile(item.variations, fileUrl, GetStub))
  }

  /** Whether the action designates a record of the tables. */
  predicate Targets(a: Action, tables: map<string, seq<Item>>) {
    !a.Ignore? && a.table in tables && a.slot < |tables[a.table]|
  }

  /** The table contents after the action: the designated record rewritten,
      every other record and every other table as before. */
  function Effect(a: Action, fileUrl: string, tables: map<string, seq<Item>>): (r: map<string, seq<Item>>)
    ensures r.Keys == tables.Keys
    ensures forall n :: n in tables ==> |r[n]| == |tables[n]|
    ensures forall n, i :: n in tables && 0 <= i < |tables[n]| && !(Targets(a, tables) && n == a.table && i == a.slot) ==>
              r[n][i] == tables[n][i]
    ensures Targets(a, tables) ==> r[a.table][a.slot] == Rewritten(a, fileUrl, tables[a.table][a.slot])
  {
    if Targets(a, tables) then
      tables[a.table := tables[a.table][a.slot := Rewritten(a, fileUrl, tables[a.table][a.slot])]]
    else tables
  }

  /** `handle_danzan_ryu`: look the record up and reset or update it in its
      table. Every failure happens before anything is written. The table
      handle is lazy, so a missing table is noticed only by the scan, after
      the key has been derived. */
  method HandleDanzanRyu(stem: string, fileUrl: string, resolve: string -> Option<string>,
                         store: Store) returns (r: Result<Action, Error>)
    modifies store
    ensures r == PlanDanzanRyu(stem, resolve, old(store.tables))
    ensures store.tables == if r.Ok? then Effect(r.value, fileUrl, old(store.tables)) else old(store.tables)
    ensures store.putCount == if r.Ok? then old(store.putCount) + 1 else old(store.putCount)
  {
    if stem == [] {
      return Err(StemTooShort(stem, 0));
    }
    var scrollId := GetScrollId(stem[0]);
    if scrollId.None? {
      return Err(UnknownScrollCode(stem[0]));
    }
    var scroll := scrollId.value;
    var prefix := TableNamePrefix(scroll);
    var resolved := resolve(prefix);
    if resolved.None? {
      return Err(NoTableForScroll(prefix));
    }
    var name := resolved.value;
    var key := DeriveKey(scroll, stem);
    if key.Err? {
      return Err(key.error);
    }
    if name !in store.tables {
      return Err(TableNotFound(name));
    }
    var found := HandleScroll(scroll, stem, store.tables[name]);
    if found.Err? {
      return Err(found.error);
    }
    var action := if EndsWith(stem, ResetMarker) then Reset(name, found.value) else Update(name, found.value);
    Perform(action, fileUrl, store);
    r := Ok(action);
  }

  /** The end of `handle_danzan_ryu`: the record is read from its table,
      reset or updated in place, and put back. */
  method Perform(a: Action, fileUrl: string, store: Store)
    requires Targets(a, store.tables)
    modifies store
    ensures store.tables == Effect(a, fileUrl, old(store.tables))
    ensures store.putCount == old(store.putCount) + 1
  {
    var item := store.tables[a.table][a.slot];
    var record := new TechniqueRecord(a.table, a.slot, item);
    if a.Reset? {
      record.ResetTechniqueList(store);
    } else {
      record.UpdateTechniqueList(store, fileUrl);
    }
  }

  /** `lambda_handler`: ignore notifications that are not "Complete", reject
      stubs without the art character, and hand the rest of the stub on. */
  method LambdaHandler(subject: string, fileUrl: string, resolve: string -> Option<string>,
                       store: Store) returns (r: Result<Action, Error>)
    modifies store
    ensures r == Plan(subject, fileUrl, resolve, old(store.tables))
    ensures store.tables == if r.Ok? then Effect(r.value, fileUrl, old(store.tables)) else old(store.tables)
    ensures store.putCount == if r.Ok? && !r.value.Ignore? then old(store.putCount) + 1 else old(store.putCount)
  {
    if !Contains(subject, "Complete") {
      return Ok(Ignore);
    }
    var fileStem := GetStub(fileUrl);
    if !StartsWith(fileStem, 'd') {
      return Err(InvalidFileName(fileStem));
    }
    var newStem := RemoveChar(fileStem, 0);
    r := HandleDanzanRyu(newStem, fileUrl, resolve, store);
  }

  // ---------------------------------------------------------------------------
  // Properties of the decision

  /** A plan that acts names the record `handle_scroll` selects: the first
      record, in the table resolved for the stem's scroll, that satisfies
      the key derived from the stem. A reset is no exception. */
  lemma PlanActsOnFirstMatch(stem: string, resolve: string -> Option<string>, tables: map<string, seq<Item>>)
    requires PlanDanzanRyu(stem, resolve, tables).Ok?
    ensures stem != [] && GetScrollId(stem[0]).Some?
    ensures var scroll := GetScrollId(stem[0]).value;
            var a := PlanDanzanRyu(stem, resolve, tables).value;
            && resolve(TableNamePrefix(scroll)) == Some(a.table)
            && DeriveKey(scroll, stem).Ok?
            && Satisfies(tables[a.table][a.slot], DeriveKey(scroll, stem).value)
            && forall j :: 0 <= j < a.slot ==> !Satisfies(tables[a.table][j], DeriveKey(scroll, stem).value)
  {
    var scroll := GetScrollId(stem[0]).value;
    var name := resolve(TableNamePrefix(scroll)).value;
    assert HandleScroll(scroll, stem, tables[name]).Ok?;
  }

  /** When no record of the resolved table satisfies the key, the
      notification fails and nothing is written, even when the stem asks
      for a reset. */
  lemma NoMatchNoAction(stem: string, resolve: string -> Option<string>, tables: map<string, seq<Item>>)
    requires stem != [] && GetScrollId(stem[0]).Some?
    requires resolve(TableNamePrefix(GetScrollId(stem[0]).value)).Some?
    requires resolve(TableNamePrefix(GetScrollId(stem[0]).value)).value in tables
    requires DeriveKey(GetScrollId(stem[0]).value, stem).Ok?
    requires var items := tables[resolve(TableNamePrefix(GetScrollId(stem[0]).value)).value];
             forall j :: 0 <= j < |items| ==> !Satisfies(items[j], DeriveKey(GetScrollId(stem[0]).value, stem).value)
    ensures PlanDanzanRyu(stem, resolve, tables) == Err(NoMatchingRecord)
  {
  }

  /** The key is derived before the table is scanned: a stem whose key
      cannot be derived fails with the key's error, whether or not the
      resolved table exists. */
  lemma KeyErrorBeforeTable(stem: string, scroll: string, name: string,
                            resolve: string -> Option<string>, tables: map<string, seq<Item>>)
    requires stem != [] && GetScrollId(stem[0]) == Some(scroll)
    requires resolve(TableNamePrefix(scroll)) == Some(name)
    requires DeriveKey(scroll, stem).Err?
    ensures PlanDanzanRyu(stem, resolve, tables) == Err(DeriveKey(scroll, stem).error)
  {
  }

  /** Two table states whose records agree in attributes position by
      position lead to the same decision. */
  lemma PlanReadsAttributes(stem: string, resolve: string -> Option<string>,
                            tables: map<string, seq<Item>>, other: map<string, seq<Item>>)
    requires other.Keys == tables.Keys
    requires forall n :: n in tables ==> |other[n]| == |tables[n]|
    requires forall n, i :: n in tables && 0 <= i < |tables[n]| ==> other[n][i].attributes == tables[n][i].attributes
    ensures PlanDanzanRyu(stem, resolve, other) == PlanDanzanRyu(stem, resolve, tables)
  {
    if stem != [] && GetScrollId(stem[0]).Some? {
      var scroll := GetScrollId(stem[0]).value;
      var resolved := resolve(TableNamePrefix(scroll));
      if resolved.Some? && resolved.value in tables {
        var name := resolved.value;
        HandleScrollReadsAttributes(scroll, stem, other[name], tables[name]);
        SameLookupSamePlan(stem, resolve, tables, other, scroll, name);
      }
    }
  }

  /** The decision depends on the resolved table only through the lookup. */
  lemma SameLookupSamePlan(stem: string, resolve: string -> Option<string>,
                           tables: map<string, seq<Item>>, other: map<string, seq<Item>>,
                           scroll: string, name: string)
    requires stem != [] && GetScrollId(stem[0]) == Some(scroll)
    requires resolve(TableNamePrefix(scroll)) == Some(name)
    requires name in tables && name in other
    requires HandleScroll(scroll, stem, other[name]) == HandleScroll(scroll, stem, tables[name])
    ensures PlanDanzanRyu(stem, resolve, other) == PlanDanzanRyu(stem, resolve, tables)
  {
  }

  /** An action rewrites at most one record and keeps every attribute. */
  lemma EffectKeepsAttributes(a: Action, fileUrl: string, tables: map<string, seq<Item>>)
    ensures var after := Effect(a, fileUrl, tables);
            forall n, i :: n in tables && 0 <= i < |tables[n]| ==> after[n][i].attributes == tables[n][i].attributes
  {
  }

  /** Rewriting a record a second time the same way changes nothing. */
  lemma RewrittenIdempotent(a: Action, fileUrl: string, item: Item)
    requires !a.Ignore?
    ensures Rewritten(a, fileUrl, Rewritten(a, fileUrl, item)) == Rewritten(a, fileUrl, item)
  {
    if a.Update? {
      ReconcileIdempotent(item.variations, fileUrl, GetStub);
    }
  }

  /** Carrying out an action a second time leaves the tables as the first
      time left them. */
  lemma EffectIdempotent(a: Action, fileUrl: string, tables: map<string, seq<Item>>)
    ensures Effect(a, fileUrl, Effect(a, fileUrl, tables)) == Effect(a, fileUrl, tables)
  {
    if Targets(a, tables) {
      RewrittenIdempotent(a, fileUrl, tables[a.table][a.slot]);
      RewriteAgain(a, fileUrl, tables, Effect(a, fileUrl, tables));
    }
  }

  /** The second application of an action finds the record it rewrote. */
  lemma RewriteAgain(a: Action, fileUrl: string, tables: map<string, seq<Item>>,
                     after: map<string, seq<Item>>)
    requires Targets(a, tables)
    requires after == tables[a.table := tables[a.table][a.slot := Rewritten(a, fileUrl, tables[a.table][a.slot])]]
    requires Rewritten(a, fileUrl, Rewritten(a, fileUrl, tables[a.table][a.slot])) ==
             Rewritten(a, fileUrl, tables[a.table][a.slot])
    ensures Effect(a, fileUrl, after) == after
  {
    var row := after[a.table];
    assert Targets(a, after);
    assert row[a.slot := Rewritten(a, fileUrl, row[a.slot])] == row;
    assert after[a.table := row] == after;
  }

  /** Delivering the same notification a second time takes the same
      decision and leaves the tables as the first delivery left them. */
  lemma ReplayIsHarmless(subject: string, fileUrl: string, resolve: string -> Option<string>,
                         tables: map<string, seq<Item>>)
    requires Plan(subject, fileUrl, resolve, tables).Ok?
    ensures var a := Plan(subject, fileUrl, resolve, tables).value;
            var after := Effect(a, fileUrl, tables);
            Plan(subject, fileUrl, resolve, after) == Ok(a) && Effect(a, fileUrl, after) == after
  {
    var a: Action := Plan(subject, fileUrl, resolve, tables).value;
    EffectKeepsAttributes(a, fileUrl, tables);
    EffectIdempotent(a, fileUrl, tables);
    if !a.Ignore? {
      PlanReadsAttributes(RemoveChar(GetStub(fileUrl), 0), resolve, tables, Effect(a, fileUrl, tables));
    }
  }

  // ---------------------------------------------------------------------------
  // From a file name to a decision

  /** Once the stem's scroll and key are known, the decision turns on the
      table lookup and on the scan of the table alone. */
  lemma PlanOfDecodedStem(stem: string, scroll: string, key: Filter,
                          resolve: string -> Option<string>, tables: map<string, seq<Item>>)
    requires stem != [] && GetScrollId(stem[0]) == Some(scroll)
    requires DeriveKey(scroll, stem) == Ok(key)
    ensures var prefix := TableNamePrefix(scroll);
            var r := PlanDanzanRyu(stem, resolve, tables);
            && (resolve(prefix).None? ==> r == Err(NoTableForScroll(prefix)))
            && (resolve(prefix).Some? && resolve(prefix).value !in tables ==>
                  r == Err(TableNotFound(resolve(prefix).value)))
            && (resolve(prefix).Some? && resolve(prefix).value in tables ==>
                  var name := resolve(prefix).value;
                  r == match FirstMatch(tables[name], key)
                       case None => Err(NoMatchingRecord)
                       case Some(slot) =>
                         Ok(if EndsWith(stem, ResetMarker) then Reset(name, slot) else Update(name, slot)))
  {
    var prefix := TableNamePrefix(scroll);
    if resolve(prefix).Some? && resolve(prefix).value in tables {
      var name := resolve(prefix).value;
      assert HandleScroll(scroll, stem, tables[name]) ==
             match FirstMatch(tables[name], key)
             case None => Err(NoMatchingRecord)
             case Some(slot) => Ok(slot);
    }
  }

  /** End to end: a "Complete" notification for the video of a well-formed
      technique name, reached over https, resets or updates the first record
      of the scroll's table whose attributes carry the technique's key, and
      resets exactly when the name ends in the reset marker. */
  lemma PlanOfNamedFile(subject: string, host: string, dir: string, ext: string,
                        t: Technique, reset: bool,
                        resolve: string -> Option<string>, tables: map<string, seq<Item>>)
    requires Contains(subject, "Complete")
    requires '/' !in host && '?' !in host && '#' !in host
    requires '?' !in dir && '#' !in dir && (dir == [] || dir[0] == '/')
    requires ext != [] && '/' !in ext && '?' !in ext && '#' !in ext && '.' !in ext
    requires Wellformed(t)
    requires '/' !in FileStem(t, reset) && '?' !in FileStem(t, reset) && '#' !in FileStem(t, reset)
    ensures var url := "https://" + host + dir + "/" + FileStem(t, reset) + "." + ext;
            var prefix := TableNamePrefix(ScrollOf(t));
            var r := Plan(subject, url, resolve, tables);
            && (resolve(prefix).None? ==> r == Err(NoTableForScroll(prefix)))
            && (resolve(prefix).Some? && resolve(prefix).value !in tables ==>
                  r == Err(TableNotFound(resolve(prefix).value)))
            && (resolve(prefix).Some? && resolve(prefix).value in tables ==>
                  var name := resolve(prefix).value;
                  r == match FirstMatch(tables[name], KeyOf(t))
                       case None => Err(NoMatchingRecord)
                       case Some(slot) => Ok(if reset then Reset(name, slot) else Update(name, slot)))
  {
    var url := "https://" + host + dir + "/" + FileStem(t, reset) + "." + ext;
    StubOfHttpsUrl(host, dir, FileStem(t, reset), ext);
    RemoveArtChar(t, reset);
    DecodeInvertsNaming(t, reset);
    assert Plan(subject, url, resolve, tables) == PlanDanzanRyu(Stem(t, reset), resolve, tables);
    PlanOfDecodedStem(Stem(t, reset), ScrollOf(t), KeyOf(t), resolve, tables);
  }
}
