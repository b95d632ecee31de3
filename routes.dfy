/** The product router's create and update handlers, reduced to what they
    hand to the generic CRUD base: the payload as an ordered dictionary.
    Authentication and persistence belong to the base and are not modelled. */
module ProductRoutes {
  import opened Wrappers
  import opened Dicts
  import opened ProductSchemas

  /** The filter of `model_dump(exclude_none=True)`: drop the entries whose
      value is None and keep the others, in order. Only top-level entries
      are dropped; a None inside a nested dictionary stays. */
  function ExcludeNone(d: Dict): (r: Dict)
    ensures |r| <= |d|
    ensures forall i | 0 <= i < |r| :: r[i].1 != Null
  {
    if d == [] then []
    else if d[0].1 == Null then ExcludeNone(d[1..])
    else [d[0]] + ExcludeNone(d[1..])
  }

  /** An entry survives the filter exactly when it was there and is not None. */
  lemma {:induction false} ExcludeNoneMembership(d: Dict, e: (string, Value))
    ensures e in ExcludeNone(d) <==> e in d && e.1 != Null
  {
    if d != [] {
      ExcludeNoneMembership(d[1..], e);
      assert d == [d[0]] + d[1..];
    }
  }

  /** The filter distributes over concatenation, so the surviving entries
      keep their relative order. */
  lemma {:induction false} ExcludeNoneAppend(a: Dict, b: Dict)
    ensures ExcludeNone(a + b) == ExcludeNone(a) + ExcludeNone(b)
  {
    if a != [] {
      assert (a + b)[1..] == a[1..] + b;
      ExcludeNoneAppend(a[1..], b);
    } else {
      assert a + b == b;
    }
  }

  /** A dictionary without None values passes the filter unchanged. */
  lemma {:induction false} ExcludeNoneWithoutNone(d: Dict)
    requires forall i | 0 <= i < |d| :: d[i].1 != Null
    ensures ExcludeNone(d) == d
  {
    if d != [] {
      ExcludeNoneWithoutNone(d[1..]);
    }
  }

  /** Filtering twice is filtering once. */
  lemma {:induction false} ExcludeNoneIdempotent(d: Dict)
    ensures ExcludeNone(ExcludeNone(d)) == ExcludeNone(d)
  {
    ExcludeNoneWithoutNone(ExcludeNone(d));
  }

  /** The filter keeps a dictionary's keys distinct. */
  lemma {:induction false} ExcludeNoneKeepsDistinct(d: Dict)
    requires DistinctKeys(d)
    ensures DistinctKeys(ExcludeNone(d))
  {
    if d != [] {
      var rest := d[1..];
      assert DistinctKeys(rest) by {
        forall i, j | 0 <= i < j < |rest| ensures rest[i].0 != rest[j].0 {
          assert rest[i] == d[i + 1] && rest[j] == d[j + 1];
        }
      }
      ExcludeNoneKeepsDistinct(rest);
      if d[0].1 != Null {
        var r := ExcludeNone(rest);
        forall j | 0 <= j < |r| ensures r[j].0 != d[0].0 {
          ExcludeNoneMembership(rest, r[j]);
          var m :| 0 <= m < |rest| && rest[m] == r[j];
          assert d[m + 1] == r[j];
        }
      }
    }
  }

  /** The dump of a payload holds each field's value under the field's key. */
  lemma DumpLookup(p: ProductPayload, f: PayloadField)
    ensures Lookup(Dump(p), Key(f)) == Some(FieldValue(p, f))
  {
    PayloadFieldsComplete(f, f);
    var i :| 0 <= i < |PayloadFields| && PayloadFields[i] == f;
    assert Dump(p)[i] == (Key(f), FieldValue(p, f));
    LookupEntry(Dump(p), Key(f), FieldValue(p, f));
  }

  /** A dump holds exactly the payload keys, each with its field's value. */
  lemma DumpLookups(p: ProductPayload)
    ensures forall f: PayloadField :: Lookup(Dump(p), Key(f)) == Some(FieldValue(p, f))
    ensures forall k :: Lookup(Dump(p), k).Some? <==> k in PayloadKeys()
  {
    forall f: PayloadField ensures Lookup(Dump(p), Key(f)) == Some(FieldValue(p, f)) {
      DumpLookup(p, f);
    }
    forall k ensures Lookup(Dump(p), k).Some? <==> k in PayloadKeys() {
      LookupAbsent(Dump(p), k);
    }
  }

  /** `create_item`: the base create receives the whole dump; every payload
      field is forwarded with its value, None included, and nothing else. */
  function CreateItem(p: ProductCreate): (d: Dict)
    ensures DistinctKeys(d)
    ensures forall f: PayloadField :: Lookup(d, Key(f)) == Some(FieldValue(p, f))
    ensures forall k :: Lookup(d, k).Some? <==> k in PayloadKeys()
  {
    DumpLookups(p);
    Dump(p)
  }

  /** The dictionary create forwards holds exactly what `DumpBody` holds,
      so reading it back as a request body gives the payload again. */
  lemma CreateItemRoundTrip(p: ProductCreate, defaultCurrency: string, k: string)
    ensures Lookup(CreateItem(p), k) == if k in DumpBody(p) then Some(DumpBody(p)[k]) else None
    ensures ParsePayload(DumpBody(p), defaultCurrency) == Success(p)
  {
    if k in DumpBody(p) {
      var f :| f in PayloadFields && Key(f) == k;
      DumpBodyField(p, f);
    } else {
      assert k !in PayloadKeys() by {
        forall i | 0 <= i < |PayloadKeys()| ensures PayloadKeys()[i] != k {
          assert PayloadFields[i] in PayloadFields;
        }
      }
    }
    DumpParseRoundTrip(p, defaultCurrency);
  }

  /** What the base update is called with. */
  datatype UpdateCall = UpdateCall(uid: string, data: Dict)

  /** In the dump of a payload, the only value under a field's key is that
      field's value. */
  lemma DumpEntry(p: ProductPayload, f: PayloadField, v: Value)
    ensures (Key(f), v) in Dump(p) <==> v == FieldValue(p, f)
  {
    DumpLookup(p, f);
    LookupEntry(Dump(p), Key(f), v);
    LookupEntry(Dump(p), Key(f), FieldValue(p, f));
  }

  /** `update_item`: the base update receives the uid unchanged and exactly
      the payload fields whose value is not None, with their values. */
  function UpdateItem(uid: string, p: ProductUpdate): (c: UpdateCall)
    ensures c.uid == uid
    ensures DistinctKeys(c.data)
    ensures forall f: PayloadField ::
              Lookup(c.data, Key(f)) == if FieldValue(p, f) == Null then None else Some(FieldValue(p, f))
    ensures forall k | k !in PayloadKeys() :: Lookup(c.data, k) == None
  {
    FilteredDumpLookups(p);
    UpdateCall(uid, ExcludeNone(Dump(p)))
  }

  /** The filtered dump holds exactly the payload keys whose value is not
      None, each with its field's value. */
  lemma FilteredDumpLookups(p: ProductPayload)
    ensures DistinctKeys(ExcludeNone(Dump(p)))
    ensures forall f: PayloadField ::
              Lookup(ExcludeNone(Dump(p)), Key(f)) == if FieldValue(p, f) == Null then None else Some(FieldValue(p, f))
    ensures forall k | k !in PayloadKeys() :: Lookup(ExcludeNone(Dump(p)), k) == None
  {
    var data := ExcludeNone(Dump(p));
    ExcludeNoneKeepsDistinct(Dump(p));
    forall f: PayloadField
      ensures Lookup(data, Key(f)) == if FieldValue(p, f) == Null then None else Some(FieldValue(p, f))
    {
      var v := FieldValue(p, f);
      match Lookup(data, Key(f))
      case None =>
        if v != Null {
          DumpEntry(p, f, v);
          ExcludeNoneMembership(Dump(p), (Key(f), v));
          LookupEntry(data, Key(f), v);
        }
      case Some(w) =>
        LookupEntry(data, Key(f), w);
        ExcludeNoneMembership(Dump(p), (Key(f), w));
        DumpEntry(p, f, w);
    }
    forall k | k !in PayloadKeys() ensures Lookup(data, k) == None {
      LookupAbsent(data, k);
      if k in Keys(data) {
        var i :| 0 <= i < |data| && data[i].0 == k;
        ExcludeNoneMembership(Dump(p), data[i]);
        assert false;
      }
    }
  }

  /** What an update forwards is what a create would forward, less the None
      entries, in the same order (this first clause holds by the two
      definitions); filtering it again changes nothing, which is the part
      that needs proof. */
  lemma UpdateIsFilteredCreate(uid: string, p: ProductPayload)
    ensures UpdateItem(uid, p).data == ExcludeNone(CreateItem(p))
    ensures ExcludeNone(UpdateItem(uid, p).data) == UpdateItem(uid, p).data
  {
    ExcludeNoneIdempotent(Dump(p));
  }

  /** `name`, `unit_price`, `currency` and `quantity` are never None in the
      update payload, so every update overwrites all four. */
  lemma UpdateAlwaysOverwritesCoreFields(uid: string, p: ProductUpdate)
    ensures Lookup(UpdateItem(uid, p).data, "name") == Some(Str(p.name))
    ensures Lookup(UpdateItem(uid, p).data, "unit_price") == Some(Num(p.unitPrice))
    ensures Lookup(UpdateItem(uid, p).data, "currency") == Some(Str(p.currency))
    ensures Lookup(UpdateItem(uid, p).data, "quantity") == Some(Num(p.quantity))
  {
    assert Key(Name) == "name" && Key(UnitPrice) == "unit_price";
    assert Key(Currency) == "currency" && Key(Quantity) == "quantity";
  }

  /** An update body that leaves out `quantity` sets it to 1, and one that
      leaves out `currency` sets it to the configured currency. */
  lemma UpdateOmittingDefaultsResetsThem(uid: string, body: map<string, Value>, defaultCurrency: string)
    requires ParsePayload(body, defaultCurrency).Success?
    ensures "quantity" !in body ==>
      Lookup(UpdateItem(uid, ParsePayload(body, defaultCurrency).value).data, "quantity") == Some(Num(1.0))
    ensures "currency" !in body ==>
      Lookup(UpdateItem(uid, ParsePayload(body, defaultCurrency).value).data, "currency") == Some(Str(defaultCurrency))
  {
    var p := ParsePayload(body, defaultCurrency).value;
    ParsedFieldValues(body, defaultCurrency, Quantity);
    ParsedFieldValues(body, defaultCurrency, Currency);
    UpdateAlwaysOverwritesCoreFields(uid, p);
  }

  /** A key outside the payload (an id, an owner, a status, a product-only
      URL) sent by a client changes neither what a create forwards nor what
      an update forwards, and is never forwarded itself. */
  lemma ForgedKeysNeverForwarded(uid: string, body: map<string, Value>, defaultCurrency: string, k: string, v: Value)
    requires k !in PayloadKeys()
    requires ParsePayload(body[k := v], defaultCurrency).Success?
    ensures ParsePayload(body, defaultCurrency).Success?
    ensures var p := ParsePayload(body[k := v], defaultCurrency).value;
      && CreateItem(p) == CreateItem(ParsePayload(body, defaultCurrency).value)
      && UpdateItem(uid, p) == UpdateItem(uid, ParsePayload(body, defaultCurrency).value)
      && Lookup(CreateItem(p), k) == None
      && Lookup(UpdateItem(uid, p).data, k) == None
  {
    ForeignKeysIgnored(body, defaultCurrency, k, v);
  }
}
