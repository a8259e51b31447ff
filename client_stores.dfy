/**
 * The browser-side list stores: the product store, the property store and
 * the newsletter-list store. Each keeps a list of objects in memory and
 * mirrors it into the browser's storage after every change. Ids are
 * numbers, so the loose equality the stores compare ids with is equality
 * of integers. Timestamps are inputs.
 */
module ClientStores {
  import opened Common

  /** A stored object: its id, its two ISO timestamps and the rest of its fields. */
  datatype Entry<T> = Entry(id: int, dateCreated: string, dateUpdated: string, data: T)

  datatype ProductInfo = ProductInfo(name: string, category: string, vendorId: int, approved: bool)

  /** The remaining fields of a property or newsletter-list object. */
  datatype Fields = Fields(values: map<string, string>)

  /**
   * The id the stores hand out: a scan that moves past every id at least
   * as large as the running candidate. It is 0 for an empty list and
   * exceeds every stored id.
   */
  function NextId<T>(s: seq<Entry<T>>): (n: int)
    ensures n >= 0
    ensures forall e :: e in s ==> e.id < n
    decreases |s|
  {
    if s == [] then 0
    else
      var m := NextId(s[..|s| - 1]);
      assert forall e :: e in s ==> e in s[..|s| - 1] || e == s[|s| - 1];
      if s[|s| - 1].id >= m then s[|s| - 1].id + 1 else m
  }

  /** The id is the largest stored id plus one, or 0 when no id is non-negative. */
  lemma {:induction false} NextIdTight<T>(s: seq<Entry<T>>)
    ensures NextId(s) == 0 || exists i :: 0 <= i < |s| && s[i].id + 1 == NextId(s)
    decreases |s|
  {
    if s != [] {
      var front := s[..|s| - 1];
      NextIdTight(front);
      if NextId(s) == NextId(front) && NextId(front) != 0 {
        var i :| 0 <= i < |front| && front[i].id + 1 == NextId(front);
        assert s[i] == front[i];
      }
    }
  }

  /** The uniqueId loop shared by the three stores. */
  method UniqueIdOf<T>(s: seq<Entry<T>>) returns (id: int)
    ensures id == NextId(s)
  {
    id := 0;
    for i := 0 to |s|
      invariant id == NextId(s[..i])
    {
      assert s[..i + 1][..i] == s[..i];
      if s[i].id >= id {
        id := s[i].id + 1;
      }
    }
    assert s[..|s|] == s;
  }

  /** The position of the first entry with the id, or |s|. */
  function FirstWithId<T>(s: seq<Entry<T>>, id: int): (i: nat)
    ensures i <= |s|
    ensures i < |s| ==> s[i].id == id
    ensures forall k :: 0 <= k < i ==> s[k].id != id
    decreases |s|
  {
    if s == [] then 0
    else if s[0].id == id then 0
    else 1 + FirstWithId(s[1..], id)
  }

  /** The find of `get`: the first entry with the id, or None (undefined). */
  function FindEntry<T>(s: seq<Entry<T>>, id: int): (r: Option<Entry<T>>)
    ensures r.None? <==> forall e :: e in s ==> e.id != id
    ensures r.Some? ==> r.value in s && r.value.id == id
    ensures r.Some? ==> r.value == s[FirstWithId(s, id)]
  {
    var i := FirstWithId(s, id);
    if i < |s| then Some(s[i]) else None
  }

  /** The filter of `remove`: every entry with another id, in order. */
  function WithoutId<T>(s: seq<Entry<T>>, id: int): (r: seq<Entry<T>>)
    ensures forall e :: e in r ==> e.id != id
    ensures forall e :: e in s && e.id != id ==> e in r
    ensures |r| <= |s|
  {
    var other := (e: Entry<T>) => e.id != id;
    FilterComplete(s, other);
    Filter(s, other)
  }

  /** `update`: the entries with the object's id removed and the object appended. */
  function Replaced<T>(s: seq<Entry<T>>, x: Entry<T>): seq<Entry<T>> {
    WithoutId(s, x.id) + [x]
  }

  /**
   * After an update exactly one entry has the object's id: the object
   * itself, last; the others are the remaining entries in order, and `get`
   * of the id returns the object.
   */
  lemma ReplacedMeaning<T>(s: seq<Entry<T>>, x: Entry<T>)
    ensures var r := Replaced(s, x);
      && |r| >= 1 && r[|r| - 1] == x
      && (forall k :: 0 <= k < |r| - 1 ==> r[k].id != x.id)
      && r[..|r| - 1] == WithoutId(s, x.id)
      && FindEntry(r, x.id) == Some(x)
  {
    var r := Replaced(s, x);
    var w := WithoutId(s, x.id);
    assert r[..|r| - 1] == w;
    assert forall k :: 0 <= k < |r| - 1 ==> r[k] in w;
  }

  /** An object added under the id `uniqueId` returned is what `get` of that id finds. */
  lemma FreshAddFound<T>(s: seq<Entry<T>>, x: Entry<T>)
    requires x.id == NextId(s)
    ensures FindEntry(s + [x], x.id) == Some(x)
  {
    var t := s + [x];
    assert forall k :: 0 <= k < |s| ==> t[k] == s[k] && s[k] in s;
  }

  /** Removing an id twice is removing it once. */
  lemma RemoveIdempotent<T>(s: seq<Entry<T>>, id: int)
    ensures WithoutId(WithoutId(s, id), id) == WithoutId(s, id)
  {
    FilterIdempotent(s, (e: Entry<T>) => e.id != id);
  }

  class ProductStore {
    var products: seq<Entry<ProductInfo>>
    /** The storage entry 'productStore'; None when absent. */
    var storage: Option<seq<Entry<ProductInfo>>>

    predicate Synced()
      reads this
    {
      storage == Some(products)
    }

    /** Loads the stored list when there is one, else stores the empty list. */
    constructor(stored: Option<seq<Entry<ProductInfo>>>)
      ensures stored.Some? ==> products == stored.value
      ensures stored.None? ==> products == []
      ensures Synced()
    {
      products := if stored.Some? then stored.value else [];
      storage := Some(if stored.Some? then stored.value else []);
    }

    method SyncStorage()
      modifies this
      ensures products == old(products) && Synced()
    {
      storage := Some(products);
    }

    method UniqueId() returns (id: int)
      ensures id == NextId(products)
    {
      id := UniqueIdOf(products);
    }

    /** Stamps both dates and appends the product. */
    method Add(product: Entry<ProductInfo>, now: string)
      modifies this
      ensures products == old(products) + [product.(dateCreated := now, dateUpdated := now)]
      ensures Synced()
    {
      products := products + [product.(dateCreated := now, dateUpdated := now)];
      SyncStorage();
    }

    function Get(id: int): (r: Option<Entry<ProductInfo>>)
      reads this
      ensures r.None? <==> forall e :: e in products ==> e.id != id
      ensures r.Some? ==> r.value in products && r.value.id == id
    {
      FindEntry(products, id)
    }

    /** Every entry, in order: the in-memory list itself, which is what storage holds once the two agree. */
    function GetAll(): (r: seq<Entry<ProductInfo>>)
      reads this
      ensures Synced() ==> storage == Some(r)
      ensures r == products
    {
      products
    }

    /** The products of the category, in order. */
    function GetByCategory(category: string): (r: seq<Entry<ProductInfo>>)
      reads this
      ensures forall e :: e in r ==> e in products && e.data.category == category
      ensures forall e :: e in products && e.data.category == category ==> e in r
    {
      var p := (e: Entry<ProductInfo>) => e.data.category == category;
      FilterComplete(products, p);
      Filter(products, p)
    }

    /** The products of the vendor, in order. */
    function GetByVendor(vendorId: int): (r: seq<Entry<ProductInfo>>)
      reads this
      ensures forall e :: e in r ==> e in products && e.data.vendorId == vendorId
      ensures forall e :: e in products && e.data.vendorId == vendorId ==> e in r
    {
      var p := (e: Entry<ProductInfo>) => e.data.vendorId == vendorId;
      FilterComplete(products, p);
      Filter(products, p)
    }

    /** The approved products, in order. */
    function GetApproved(): (r: seq<Entry<ProductInfo>>)
      reads this
      ensures forall e :: e in r ==> e in products && e.data.approved
      ensures forall e :: e in products && e.data.approved ==> e in r
    {
      var p := (e: Entry<ProductInfo>) => e.data.approved;
      FilterComplete(products, p);
      Filter(products, p)
    }

    /** Stamps the update date, removes every product with its id and appends it. */
    method Update(product: Entry<ProductInfo>, now: string)
      modifies this
      ensures products == Replaced(old(products), product.(dateUpdated := now))
      ensures Synced()
    {
      var stamped := product.(dateUpdated := now);
      Remove(stamped.id);
      products := products + [stamped];
      SyncStorage();
    }

    method Remove(id: int)
      modifies this
      ensures products == WithoutId(old(products), id)
      ensures Synced()
    {
      products := WithoutId(products, id);
      SyncStorage();
    }

    /** Writes a list to storage without touching the in-memory list. */
    method OverwriteStorage(list: seq<Entry<ProductInfo>>)
      modifies this
      ensures storage == Some(list) && products == old(products)
    {
      storage := Some(list);
    }
  }

  class PropertyStore {
    var properties: seq<Entry<Fields>>
    /** The storage entry 'propertyStore'; None when absent. */
    var storage: Option<seq<Entry<Fields>>>

    predicate Synced()
      reads this
    {
      storage == Some(properties)
    }

    constructor(stored: Option<seq<Entry<Fields>>>)
      ensures stored.Some? ==> properties == stored.value
      ensures stored.None? ==> properties == []
      ensures Synced()
    {
      properties := if stored.Some? then stored.value else [];
      storage := Some(if stored.Some? then stored.value else []);
    }

    method SyncStorage()
      modifies this
      ensures properties == old(properties) && Synced()
    {
      storage := Some(properties);
    }

    method UniqueId() returns (id: int)
      ensures id == NextId(properties)
    {
      id := UniqueIdOf(properties);
    }

    method Add(entry: Entry<Fields>, now: string)
      modifies this
      ensures properties == old(properties) + [entry.(dateCreated := now, dateUpdated := now)]
      ensures Synced()
    {
      properties := properties + [entry.(dateCreated := now, dateUpdated := now)];
      SyncStorage();
    }

    function Get(id: int): (r: Option<Entry<Fields>>)
      reads this
      ensures r.None? <==> forall e :: e in properties ==> e.id != id
      ensures r.Some? ==> r.value in properties && r.value.id == id
    {
      FindEntry(properties, id)
    }

    /** Every entry, in order: the in-memory list itself, which is what storage holds once the two agree. */
    function GetAll(): (r: seq<Entry<Fields>>)
      reads this
      ensures Synced() ==> storage == Some(r)
      ensures r == properties
    {
      properties
    }

    method Update(entry: Entry<Fields>, now: string)
      modifies this
      ensures properties == Replaced(old(properties), entry.(dateUpdated := now))
      ensures Synced()
    {
      var stamped := entry.(dateUpdated := now);
      Remove(stamped.id);
      properties := properties + [stamped];
      SyncStorage();
    }

    method Remove(id: int)
      modifies this
      ensures properties == WithoutId(old(properties), id)
      ensures Synced()
    {
      properties := WithoutId(properties, id);
      SyncStorage();
    }

    method OverwriteStorage(list: seq<Entry<Fields>>)
      modifies this
      ensures storage == Some(list) && properties == old(properties)
    {
      storage := Some(list);
    }
  }

  class NewsletterListStore {
    var lists: seq<Entry<Fields>>
    /** The storage entry 'newsletterListStore'; None when absent. */
    var storage: Option<seq<Entry<Fields>>>

    predicate Synced()
      reads this
    {
      storage == Some(lists)
    }

    constructor(stored: Option<seq<Entry<Fields>>>)
      ensures stored.Some? ==> lists == stored.value
      ensures stored.None? ==> lists == []
      ensures Synced()
    {
      lists := if stored.Some? then stored.value else [];
      storage := Some(if stored.Some? then stored.value else []);
    }

    method SyncStorage()
      modifies this
      ensures lists == old(lists) && Synced()
    {
      storage := Some(lists);
    }

    method UniqueId() returns (id: int)
      ensures id == NextId(lists)
    {
      id := UniqueIdOf(lists);
    }

    /** Appends the stamped object and reports success, always. */
    method Add(entry: Entry<Fields>, now: string) returns (ok: bool)
      modifies this
      ensures ok
      ensures lists == old(lists) + [entry.(dateCreated := now, dateUpdated := now)]
      ensures Synced()
    {
      lists := lists + [entry.(dateCreated := now, dateUpdated := now)];
      SyncStorage();
      ok := true;
    }

    function Get(id: int): (r: Option<Entry<Fields>>)
      reads this
      ensures r.None? <==> forall e :: e in lists ==> e.id != id
      ensures r.Some? ==> r.value in lists && r.value.id == id
    {
      FindEntry(lists, id)
    }

    /** Every entry, in order: the in-memory list itself, which is what storage holds once the two agree. */
    function GetAll(): (r: seq<Entry<Fields>>)
      reads this
      ensures Synced() ==> storage == Some(r)
      ensures r == lists
    {
      lists
    }

    method Update(entry: Entry<Fields>, now: string)
      modifies this
      ensures lists == Replaced(old(lists), entry.(dateUpdated := now))
      ensures Synced()
    {
      var stamped := entry.(dateUpdated := now);
      Remove(stamped.id);
      lists := lists + [stamped];
      SyncStorage();
    }

    method Remove(id: int)
      modifies this
      ensures lists == WithoutId(old(lists), id)
      ensures Synced()
    {
      lists := WithoutId(lists, id);
      SyncStorage();
    }
  }
}
