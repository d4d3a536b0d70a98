/**
 What the cached vendor calls answer and keep, call by call, and what a row of the shortage summary shows, said of the
 mapping table.
 */
module VendorAnswers {
  import opened Sequences
  import opened Options
  import opened VendorRouting
  import opened VendorCache
  import opened DeficitPool

  // ---------------------------------------------------------------- cached calls

  /** A read answers from the cache if it can be read and has the key, and the computed choice otherwise; only a
      computed choice is kept, if there is one and keeping it works. */
  lemma GetAnswers(c: Cached, sku: string, f: CacheFaults)
    ensures var hit := sku in c.cache && !f.readFails;
            && Answer(c, sku, f) == (if hit then Some(c.cache[sku]) else Optimal(c.vendors, sku))
            && Apply(c, Get(sku), f)
               == if hit || f.writeFails || Optimal(c.vendors, sku) == None then c
                  else Cached(c.vendors, c.cache[sku := Optimal(c.vendors, sku).value])
  {
  }

  /** The SKU has a mapping to the supplier. */
  predicate Maps(v: Vendors, sku: string, id: nat) {
    exists i :: 0 <= i < |v.mappings| && v.mappings[i].supplierId == id && v.mappings[i].sku == sku
  }

  /** Of the cache, just the keys that hold are left, with what they had. */
  ghost predicate Keeps(before: map<string, Choice>, after: map<string, Choice>, lost: string -> bool) {
    forall sku :: (sku in after <==> sku in before && !lost(sku)) && (sku in after ==> after[sku] == before[sku])
  }

  /** A metric update that is stored loses the keys of the SKUs mapped to the supplier, unless the look-up fails or the
      delete of that key does; one that is not stored does nothing. */
  lemma UpdateAnswers(c: Cached, id: nat, f: CacheFaults)
    ensures f.storeFails ==> Apply(c, UpdateMetrics(id), f) == c
    ensures !f.storeFails ==>
              var c' := Apply(c, UpdateMetrics(id), f);
              && c'.vendors == AfterMetrics(c.vendors, id)
              && Keeps(c.cache, c'.cache, sku => !f.lookupFails && Maps(c.vendors, sku, id) && sku !in f.lostDeletes)
  {
    forall sku
      ensures sku in SkusOfSupplier(c.vendors.mappings, id) <==> Maps(c.vendors, sku, id)
    {
      if Maps(c.vendors, sku, id) {
        var i :| 0 <= i < |c.vendors.mappings| && c.vendors.mappings[i].supplierId == id
                 && c.vendors.mappings[i].sku == sku;
        assert c.vendors.mappings[i] in c.vendors.mappings;
      }
    }
  }

  /** A new mapping comes last and loses the key of its SKU, unless that delete fails; a new supplier or receipt is
      added and loses none. A supplier that exists is not replaced. */
  lemma AdditionAnswers(c: Cached, id: nat, s: Supplier, m: Mapping, r: Receipt, f: CacheFaults)
    ensures f.storeFails ==> Apply(c, NewMapping(m), f) == c && Apply(c, NewSupplier(id, s), f) == c
    ensures !f.storeFails ==>
              var c' := Apply(c, NewMapping(m), f);
              && c'.vendors == Vendors(c.vendors.suppliers, c.vendors.mappings + [m], c.vendors.receipts)
              && Keeps(c.cache, c'.cache, sku => sku == m.sku && sku !in f.lostDeletes)
    ensures !f.storeFails ==>
              Apply(c, NewSupplier(id, s), f)
              == if id in c.vendors.suppliers then c
                 else Cached(Vendors(c.vendors.suppliers[id := s], c.vendors.mappings, c.vendors.receipts), c.cache)
    ensures Apply(c, NewReceipt(r), f)
         == Cached(Vendors(c.vendors.suppliers, c.vendors.mappings, c.vendors.receipts + [r]), c.cache)
  {
  }

  // ---------------------------------------------------------------- the shortage summary

  /** The mapping at place a is the cheapest of its SKU, and the first of the cheapest. */
  predicate CheapestAt(ms: seq<Mapping>, sku: string, a: nat) {
    && a < |ms| && ms[a].sku == sku
    && (forall b :: 0 <= b < |ms| && ms[b].sku == sku ==> ms[a].price <= ms[b].price)
    && forall b :: 0 <= b < a && ms[b].sku == sku ==> ms[a].price < ms[b].price
  }

  lemma {:induction false} NoMappingIff(ms: seq<Mapping>, sku: string)
    ensures OfSku(ms, sku) == [] <==> forall b :: 0 <= b < |ms| ==> ms[b].sku != sku
  {
    if ms != [] {
      NoMappingIff(ms[1..], sku);
      assert forall b :: 0 < b < |ms| ==> ms[b] == ms[1..][b - 1];
      assert forall b :: 0 <= b < |ms[1..]| ==> ms[1..][b] == ms[b + 1];
    }
  }

  lemma CheapestOfLonger(ms: seq<Mapping>, sku: string, a: nat)
    requires ms != [] && CheapestAt(ms[1..], sku, a)
    ensures if ms[0].sku == sku && ms[0].price <= ms[a + 1].price then CheapestAt(ms, sku, 0)
            else CheapestAt(ms, sku, a + 1)
  {
    assert forall b :: 0 < b < |ms| ==> ms[b] == ms[1..][b - 1];
  }

  lemma {:induction false} CheapestComesFirst(ms: seq<Mapping>, sku: string) returns (a: nat)
    requires OfSku(ms, sku) != []
    ensures ByPrice(OfSku(ms, sku)) != []
    ensures CheapestAt(ms, sku, a) && ms[a] == ByPrice(OfSku(ms, sku))[0]
  {
    var rest := OfSku(ms[1..], sku);
    a := 0;
    EmptySums(rest);
    TailOfSum([ms[0]], rest);
    assert [ms[0]][1..] == [];
    if rest != [] {
      var later := CheapestComesFirst(ms[1..], sku);
      CheapestOfLonger(ms, sku, later);
      if !(ms[0].sku == sku && ms[0].price <= ms[later + 1].price) {
        a := later + 1;
      }
    } else {
      NoMappingIff(ms[1..], sku);
      assert forall b :: 0 < b < |ms| ==> ms[b] == ms[1..][b - 1];
      EmptySums([ms[0]]);
      assert ByPrice([ms[0]]) == [ms[0]];
    }
  }

  /** The supplier a row shows: of the first cheapest mapping of its SKU in the table, by name, or the text for a SKU
      without a mapping or a mapping without a supplier. */
  lemma RowShowsCheapest(v: Vendors, sku: string, name: string, a: nat)
    ensures (forall b :: 0 <= b < |v.mappings| ==> v.mappings[b].sku != sku) ==>
              (IsShownSupplier(v, sku, name) <==> name == "No Supplier Mapping")
    ensures CheapestAt(v.mappings, sku, a) ==>
              (IsShownSupplier(v, sku, name) <==>
                 name == if v.mappings[a].supplierId in v.suppliers
                         then v.suppliers[v.mappings[a].supplierId].name else "No Supplier Mapping")
  {
    var ms := FindBySku(v, sku);
    NoMappingIff(v.mappings, sku);
    if CheapestAt(v.mappings, sku, a) {
      var first := CheapestComesFirst(v.mappings, sku);
      assert first == a;
      ByPriceAscends(OfSku(v.mappings, sku));
      assert IsCheapest(ms, 0);
    }
  }

  /** A row is numbered from one, and its quantity is everything the pool asks of its SKU. */
  lemma RowCounts(v: Vendors, pool: seq<Delivery>, i: nat, row: SummaryRow)
    requires IsRow(v, pool, i, row)
    ensures row.position == i + 1 && row.sku == SkusOf(pool)[i] && row.reqQty == Sum(UnitsOf(row.sku), pool)
    ensures IsShownSupplier(v, row.sku, row.bestSupplier)
  {
  }
}
