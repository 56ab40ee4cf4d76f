/** The variation reconciler: the list of variation URLs a record keeps,
    the stub list extracted from it, the replace-or-append merge of a new URL
    and the stable sort by stub that follows, and the record class whose
    `Variations` field `update_technique_list` and `reset_technique_list`
    change in place before writing the record back. */
module Variations {
  import opened StemCodec
  import opened StubOrder
  import opened Catalog

  // The specification below is stated for any key function, as the sort is;
  // the record's operations use it with `GetStub`.

  /** The key of every entry, in list order. */
  function Keys(vs: seq<string>, key: string -> string): (r: seq<string>)
    ensures |r| == |vs|
  {
    if vs == [] then [] else Keys(vs[..|vs| - 1], key) + [key(vs[|vs| - 1])]
  }

  /** Keys lists one key per entry, at the entry's own index. */
  lemma {:induction false} KeysSpec(vs: seq<string>, key: string -> string)
    ensures forall i :: 0 <= i < |vs| ==> Keys(vs, key)[i] == key(vs[i])
  {
    if vs != [] {
      var init := vs[..|vs| - 1];
      KeysSpec(init, key);
      forall i | 0 <= i < |vs| ensures Keys(vs, key)[i] == key(vs[i]) {
        if i < |vs| - 1 {
          assert Keys(vs, key)[i] == Keys(init, key)[i];
          assert init[i] == vs[i];
        }
      }
    }
  }

  /** Every entry whose listed key is k replaced by url, the others kept. */
  function ReplaceListed(vs: seq<string>, keys: seq<string>, k: string, url: string): (r: seq<string>)
    requires |keys| == |vs|
    ensures |r| == |vs|
    ensures forall i :: 0 <= i < |vs| ==> r[i] == if keys[i] == k then url else vs[i]
    decreases |vs|
  {
    if vs == [] then []
    else [if keys[0] == k then url else vs[0]] + ReplaceListed(vs[1..], keys[1..], k, url)
  }

  /** The list before sorting: url replaces the entries with its key, or is
      appended when there is none. */
  function Merge(vs: seq<string>, url: string, key: string -> string): seq<string> {
    KeysSpec(vs, key);
    var keys := Keys(vs, key);
    if key(url) in keys then ReplaceListed(vs, keys, key(url), url) else vs + [url]
  }

  /** The list after the update: the merge, stably sorted by key. */
  function Reconcile(vs: seq<string>, url: string, key: string -> string): seq<string> {
    SortBy(Merge(vs, url, key), key)
  }

  /** `sort_url_by_stub`: Python's stable `list.sort` keyed by the stub. */
  function SortUrlByStub(urls: seq<string>): (r: seq<string>)
    ensures multiset(r) == multiset(urls)
    ensures SortedBy(r, GetStub)
    ensures forall k :: WithKey(r, GetStub, k) == WithKey(urls, GetStub, k)
  {
    SortStableForAllKeys(urls, GetStub);
    SortBy(urls, GetStub)
  }

  lemma SortStableForAllKeys(s: seq<string>, key: string -> string)
    ensures forall k :: WithKey(SortBy(s, key), key, k) == WithKey(s, key, k)
  {
    forall k ensures WithKey(SortBy(s, key), key, k) == WithKey(s, key, k) {
      SortStable(s, key, k);
    }
  }

  /** Replacing the entries listed with url's key, when every entry's key is
      listed at its index: url is among them, and every entry left with its
      key is url. */
  lemma ReplaceListedReplaces(vs: seq<string>, keys: seq<string>, url: string, key: string -> string)
    requires |keys| == |vs| && forall i :: 0 <= i < |vs| ==> keys[i] == key(vs[i])
    requires key(url) in keys
    ensures url in ReplaceListed(vs, keys, key(url), url)
    ensures forall x :: x in ReplaceListed(vs, keys, key(url), url) && key(x) == key(url) ==> x == url
  {
    var k := key(url);
    var m := ReplaceListed(vs, keys, k, url);
    var i :| 0 <= i < |vs| && keys[i] == k;
    assert m[i] == url;
    forall x | x in m && key(x) == k ensures x == url {
      var j :| 0 <= j < |m| && m[j] == x;
      assert keys[j] == k;
    }
  }

  /** An entry of a list whose keys do not include k does not have key k. */
  lemma NotListedKey(vs: seq<string>, key: string -> string, k: string)
    requires k !in Keys(vs, key)
    ensures forall x :: x in vs ==> key(x) != k
  {
    KeysSpec(vs, key);
    forall x | x in vs ensures key(x) != k {
      var i :| 0 <= i < |vs| && vs[i] == x;
      assert Keys(vs, key)[i] == key(x);
    }
  }

  /** The merge holds url, and every entry with url's key is url itself. */
  lemma MergeReplaces(vs: seq<string>, url: string, key: string -> string)
    ensures url in Merge(vs, url, key)
    ensures forall x :: x in Merge(vs, url, key) && key(x) == key(url) ==> x == url
  {
    if key(url) in Keys(vs, key) {
      KeysSpec(vs, key);
      ReplaceListedReplaces(vs, Keys(vs, key), url, key);
    } else {
      NotListedKey(vs, key, key(url));
      var m := Merge(vs, url, key);
      assert m == vs + [url];
      assert m[|vs|] == url;
    }
  }

  /** After the update url is in the list, and every entry left with its
      key is url (one copy per entry that had the key). */
  lemma ReconcileReplaces(vs: seq<string>, url: string, key: string -> string)
    ensures url in Reconcile(vs, url, key)
    ensures forall x :: x in Reconcile(vs, url, key) && key(x) == key(url) ==> x == url
  {
    MergeReplaces(vs, url, key);
    var m := Merge(vs, url, key);
    var r := Reconcile(vs, url, key);
    assert multiset(r) == multiset(m);
    assert url in multiset(m);
    forall x | x in r && key(x) == key(url) ensures x == url {
      assert x in multiset(r);
    }
  }

  lemma {:induction false} ReplaceKeepsCount(vs: seq<string>, keys: seq<string>, k: string, url: string, x: string)
    requires |keys| == |vs| && url != x
    requires forall i :: 0 <= i < |vs| && vs[i] == x ==> keys[i] != k
    ensures multiset(ReplaceListed(vs, keys, k, url))[x] == multiset(vs)[x]
  {
    if vs != [] {
      ReplaceKeepsCount(vs[1..], keys[1..], k, url, x);
      ReplaceCountStep(vs, keys, k, url, x);
    }
  }

  /** The step of ReplaceKeepsCount: the head is x after the replacement
      exactly when it was x before. */
  lemma ReplaceCountStep(vs: seq<string>, keys: seq<string>, k: string, url: string, x: string)
    requires |keys| == |vs| && vs != [] && url != x
    requires vs[0] == x ==> keys[0] != k
    requires multiset(ReplaceListed(vs[1..], keys[1..], k, url))[x] == multiset(vs[1..])[x]
    ensures multiset(ReplaceListed(vs, keys, k, url))[x] == multiset(vs)[x]
  {
    var h := if keys[0] == k then url else vs[0];
    var rest := ReplaceListed(vs[1..], keys[1..], k, url);
    assert ReplaceListed(vs, keys, k, url) == [h] + rest;
    assert vs == [vs[0]] + vs[1..];
    assert multiset([h] + rest) == multiset{h} + multiset(rest);
    assert multiset(vs) == multiset{vs[0]} + multiset(vs[1..]);
    assert multiset{h}[x] == multiset{vs[0]}[x];
  }

  /** Entries whose key differs from url's are kept, as many times as
      before. */
  lemma ReconcileKeepsOthers(vs: seq<string>, url: string, key: string -> string, x: string)
    requires key(x) != key(url)
    ensures multiset(Reconcile(vs, url, key))[x] == multiset(vs)[x]
  {
    var keys := Keys(vs, key);
    KeysSpec(vs, key);
    assert multiset(Reconcile(vs, url, key)) == multiset(Merge(vs, url, key));
    if key(url) in keys {
      ReplaceKeepsCount(vs, keys, key(url), url, x);
    } else {
      assert multiset(vs + [url]) == multiset(vs) + multiset{url};
    }
  }

  /** The list keeps its length when an entry had url's key, and grows by
      one otherwise. */
  lemma ReconcileLength(vs: seq<string>, url: string, key: string -> string)
    ensures |Reconcile(vs, url, key)| == if key(url) in Keys(vs, key) then |vs| else |vs| + 1
  {
    assert |multiset(Reconcile(vs, url, key))| == |multiset(Merge(vs, url, key))|;
  }

  lemma {:induction false} ReplaceKeepsWithKey(vs: seq<string>, keys: seq<string>, k: string, url: string,
                                               key: string -> string, j: string)
    requires |keys| == |vs| && forall i :: 0 <= i < |vs| ==> keys[i] == key(vs[i])
    requires key(url) == k && j != k
    ensures WithKey(ReplaceListed(vs, keys, k, url), key, j) == WithKey(vs, key, j)
  {
    if vs != [] {
      var r := ReplaceListed(vs, keys, k, url);
      var rest := ReplaceListed(vs[1..], keys[1..], k, url);
      ReplaceKeepsWithKey(vs[1..], keys[1..], k, url, key, j);
      WithKeyCons(r[0], rest, key, j);
      assert vs == [vs[0]] + vs[1..];
      WithKeyCons(vs[0], vs[1..], key, j);
    }
  }

  lemma {:induction false} WithKeyAppend(a: seq<string>, b: seq<string>, key: string -> string, k: string)
    ensures WithKey(a + b, key, k) == WithKey(a, key, k) + WithKey(b, key, k)
  {
    if a == [] {
      assert a + b == b;
    } else {
      WithKeyAppend(a[1..], b, key, k);
      assert a + b == [a[0]] + (a[1..] + b);
      WithKeyCons(a[0], a[1..] + b, key, k);
      assert a == [a[0]] + a[1..];
      WithKeyCons(a[0], a[1..], key, k);
    }
  }

  /** Entries with any other key keep their relative order. */
  lemma ReconcileKeepsOrder(vs: seq<string>, url: string, key: string -> string, j: string)
    requires j != key(url)
    ensures WithKey(Reconcile(vs, url, key), key, j) == WithKey(vs, key, j)
  {
    var k := key(url);
    var keys := Keys(vs, key);
    KeysSpec(vs, key);
    SortStable(Merge(vs, url, key), key, j);
    if k in keys {
      ReplaceKeepsWithKey(vs, keys, k, url, key, j);
    } else {
      WithKeyAppend(vs, [url], key, j);
      assert WithKey([url], key, j) == [];
    }
  }

  /** The list is in non-decreasing key order after the update. */
  lemma ReconcileSorted(vs: seq<string>, url: string, key: string -> string)
    ensures SortedBy(Reconcile(vs, url, key), key)
  {
  }

  /** Replacing by url where url already stands changes nothing. */
  lemma ReplaceListedIdentity(vs: seq<string>, keys: seq<string>, k: string, url: string)
    requires |keys| == |vs|
    requires forall i :: 0 <= i < |vs| && keys[i] == k ==> vs[i] == url
    ensures ReplaceListed(vs, keys, k, url) == vs
  {
    var r := ReplaceListed(vs, keys, k, url);
    assert forall i :: 0 <= i < |vs| ==> r[i] == vs[i];
  }

  /** Merging url into a list that holds it, and whose every entry with
      its key is url, leaves the list as it is. */
  lemma MergeIdentity(r: seq<string>, url: string, key: string -> string)
    requires url in r
    requires forall x :: x in r && key(x) == key(url) ==> x == url
    ensures Merge(r, url, key) == r
  {
    var k := key(url);
    var keys := Keys(r, key);
    KeysSpec(r, key);
    var i :| 0 <= i < |r| && r[i] == url;
    assert keys[i] == k;
    forall j | 0 <= j < |r| && keys[j] == k ensures r[j] == url {
      assert r[j] in r;
    }
    ReplaceListedIdentity(r, keys, k, url);
  }

  /** Reconciling the same URL a second time changes nothing. */
  lemma ReconcileIdempotent(vs: seq<string>, url: string, key: string -> string)
    ensures Reconcile(Reconcile(vs, url, key), url, key) == Reconcile(vs, url, key)
  {
    var r := Reconcile(vs, url, key);
    ReconcileReplaces(vs, url, key);
    MergeIdentity(r, url, key);
    SortSortedIsIdentity(r, key);
  }

  /** The loop of `extract_stub_list`, for any key function: the key of
      every entry, collected in list order. */
  method CollectKeys(vs: seq<string>, key: string -> string) returns (keys: seq<string>)
    ensures keys == Keys(vs, key)
  {
    keys := [];
    for i := 0 to |vs|
      invariant keys == Keys(vs[..i], key)
    {
      assert vs[..i + 1][..i] == vs[..i];
      keys := keys + [key(vs[i])];
    }
    assert vs[..|vs|] == vs;
  }

  /** `extract_stub_list`: the stub of every variation, in order. */
  method ExtractStubList(variations: seq<string>) returns (stubs: seq<string>)
    ensures stubs == Keys(variations, GetStub)
  {
    stubs := CollectKeys(variations, GetStub);
  }

  /** The `data` dictionary the scan returned: the record's attributes and
      its `Variations` list, which the two operations below change in place.
      `table` and `slot` say where the record was read from, and so where
      `put_item` writes it back. */
  class TechniqueRecord {
    const table: string
    const slot: nat
    var attributes: map<string, string>
    var variations: seq<string>

    constructor (table: string, slot: nat, item: Item)
      ensures this.table == table && this.slot == slot
      ensures attributes == item.attributes && variations == item.variations
    {
      this.table := table;
      this.slot := slot;
      attributes := item.attributes;
      variations := item.variations;
    }

    /** `update_technique_list`: replace the entries with the new URL's stub
        by the URL (or append it), sort by stub, and write the record back. */
    method UpdateTechniqueList(store: Store, fileUrl: string)
      requires table in store.tables && slot < |store.tables[table]|
      modifies this, store
      ensures variations == Reconcile(old(variations), fileUrl, GetStub)
      ensures attributes == old(attributes)
      ensures store.tables == old(store.tables)[table := old(store.tables)[table][slot := Item(attributes, variations)]]
      ensures store.putCount == old(store.putCount) + 1
    {
      var newStub := GetStub(fileUrl);
      var stubList := ExtractStubList(variations);
      if newStub in stubList {
        ReplaceListedEntries(stubList, newStub, fileUrl);
      } else {
        variations := variations + [fileUrl];
      }
      variations := SortUrlByStub(variations);
      store.PutItem(table, slot, Item(attributes, variations));
    }

    /** The replacement loop of `update_technique_list`: every entry whose
        listed stub is newStub becomes fileUrl, in place. */
    method ReplaceListedEntries(stubList: seq<string>, newStub: string, fileUrl: string)
      requires |stubList| == |variations|
      modifies this
      ensures variations == ReplaceListed(old(variations), stubList, newStub, fileUrl)
      ensures attributes == old(attributes)
    {
      for i := 0 to |stubList|
        invariant attributes == old(attributes)
        invariant |variations| == |stubList|
        invariant forall j :: 0 <= j < i ==>
                    variations[j] == if stubList[j] == newStub then fileUrl else old(variations)[j]
        invariant forall j :: i <= j < |variations| ==> variations[j] == old(variations)[j]
      {
        if stubList[i] == newStub {
          variations := variations[i := fileUrl];
        }
      }
    }

    /** `reset_technique_list`: empty the list and write the record back,
        whether or not it was already empty. */
    method ResetTechniqueList(store: Store)
      requires table in store.tables && slot < |store.tables[table]|
      modifies this, store
      ensures variations == [] && attributes == old(attributes)
      ensures store.tables == old(store.tables)[table := old(store.tables)[table][slot := Item(attributes, [])]]
      ensures store.putCount == old(store.putCount) + 1
    {
      variations := [];
      store.PutItem(table, slot, Item(attributes, variations));
    }
  }
}
