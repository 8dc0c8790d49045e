/** The API helper's pure logic: the listing query `getAuctions` builds from its parameter
    object, the body `updateAuction` sends, and the error `placeBid` throws. */
module ApiHelper {
  import opened Text
  import Lists

  /** The JavaScript values a parameter object can hold (numbers are integers here). */
  datatype JsValue =
    | Undefined
    | Null
    | Str(s: string)
    | Num(n: int)
    | Bool(b: bool)
    | Obj(props: map<string, JsValue>)

  /** JavaScript truthiness. */
  predicate Truthy(v: JsValue) {
    match v
    case Undefined => false
    case Null => false
    case Str(s) => s != ""
    case Num(n) => n != 0
    case Bool(b) => b
    case Obj(_) => true
  }

  /** `o.key` on an object; a missing property reads as `undefined`. */
  function Prop(v: JsValue, key: string): JsValue {
    if v.Obj? && key in v.props then v.props[key] else Undefined
  }

  /** `value.toString()` for a value that is neither null nor undefined. */
  function ToString(v: JsValue): string
    requires !v.Undefined? && !v.Null?
  {
    match v
    case Str(s) => s
    case Num(n) => IntToString(n)
    case Bool(b) => if b then "true" else "false"
    case Obj(_) => "[object Object]"
  }

  /** A query string as URLSearchParams holds it: name/value pairs in append order. */
  type Query = seq<(string, string)>

  /** The pairs one `[key, value]` entry appends to the query. */
  function EntryPairs(entry: (string, JsValue)): Query {
    var (key, value) := entry;
    if value == Undefined || value == Str("") then []
    else if key == "status" && Truthy(value) && value.Obj? then
      (if Truthy(Prop(value, "active")) then [("active", "true")] else [])
      + (if Truthy(Prop(value, "ended")) then [("ended", "true")] else [])
    else [(key, if value == Null then "" else ToString(value))]
  }

  /** The query the entries produce, entry by entry in their order. */
  function QueryOf(entries: seq<(string, JsValue)>): Query {
    Lists.FlatMap(EntryPairs, entries)
  }

  /** `getAuctions(params)` up to the fetch: the `forEach` over `Object.entries(params)` that
      appends to a URLSearchParams. */
  method BuildQuery(entries: seq<(string, JsValue)>) returns (query: Query)
    ensures query == QueryOf(entries)
  {
    query := [];
    var i := 0;
    while i < |entries|
      invariant 0 <= i <= |entries|
      invariant query == QueryOf(entries[..i])
    {
      var (key, value) := entries[i];
      assert entries[..i + 1][..i] == entries[..i];
      if value == Undefined || value == Str("") {
        // skipped entry
      } else if key == "status" && Truthy(value) && value.Obj? {
        if Truthy(Prop(value, "active")) {
          query := query + [("active", "true")];
        }
        if Truthy(Prop(value, "ended")) {
          query := query + [("ended", "true")];
        }
      } else {
        query := query + [(key, if value == Null then "" else ToString(value))];
      }
      i := i + 1;
    }
    assert entries[..i] == entries;
  }

  /** An entry left undefined or set to "" contributes nothing. */
  lemma UnsetEntrySkipped(key: string, value: JsValue)
    requires value == Undefined || value == Str("")
    ensures EntryPairs((key, value)) == []
  {
  }

  /** A `status` object expands into "active=true" iff `active` is truthy and "ended=true" iff
      `ended` is truthy, in that order; with both falsy it contributes nothing. */
  lemma StatusExpansion(value: JsValue)
    requires value.Obj?
    ensures var q := EntryPairs(("status", value));
      && (("active", "true") in q <==> Truthy(Prop(value, "active")))
      && (("ended", "true") in q <==> Truthy(Prop(value, "ended")))
      && (forall i :: 0 <= i < |q| ==> q[i].0 != "status")
      && (q == [] <==> !Truthy(Prop(value, "active")) && !Truthy(Prop(value, "ended")))
  {
  }

  /** Every other set entry appends exactly one pair under its own name: null as "", and the
      falsy 0 and false are still sent. */
  lemma ScalarEntryOnePair(key: string, value: JsValue)
    requires value != Undefined && value != Str("")
    requires !(key == "status" && value.Obj?)
    ensures |EntryPairs((key, value))| == 1 && EntryPairs((key, value))[0].0 == key
    ensures value != Null ==> EntryPairs((key, value)) == [(key, ToString(value))]
    ensures value == Null ==> EntryPairs((key, value)) == [(key, "")]
    ensures value == Num(0) ==> EntryPairs((key, value)) == [(key, "0")]
    ensures value == Bool(false) ==> EntryPairs((key, value)) == [(key, "false")]
  {
  }

  /** The query follows the entry order: building from two runs of entries is concatenating
      their queries. */
  lemma QueryOfAppend(a: seq<(string, JsValue)>, b: seq<(string, JsValue)>)
    ensures QueryOf(a + b) == QueryOf(a) + QueryOf(b)
  {
    Lists.FlatMapAppend(EntryPairs, a, b);
  }

  /** A pair is in the query exactly when one of the entries appends it. */
  lemma QueryPairsFromEntries(entries: seq<(string, JsValue)>, p: (string, string))
    ensures p in QueryOf(entries) <==> exists j :: 0 <= j < |entries| && p in EntryPairs(entries[j])
  {
    if p in QueryOf(entries) {
      Lists.FlatMapFrom(EntryPairs, entries, p);
    }
    if exists j :: 0 <= j < |entries| && p in EntryPairs(entries[j]) {
      var j :| 0 <= j < |entries| && p in EntryPairs(entries[j]);
      Lists.FlatMapTo(EntryPairs, entries, j, p);
    }
  }

  // ---------------------------------------------------------------- updateAuction

  /** An object's own properties in order (what the spread syntax copies). */
  type Entries = seq<(string, JsValue)>

  function Keys(o: Entries): set<string> {
    set i | 0 <= i < |o| :: o[i].0
  }

  /** The value the first property with that key holds, `undefined` if there is none. */
  function Lookup(o: Entries, key: string): JsValue {
    if o == [] then Undefined
    else if o[0].0 == key then o[0].1
    else Lookup(o[1..], key)
  }

  /** `{ ...auction, id }`: spreading copies the partial in order; assigning `id` then overwrites
      an existing `id` property in place or adds one at the end. */
  function UpdatePayload(partial: Entries, id: string): Entries {
    var copied := seq(|partial|, i requires 0 <= i < |partial| =>
      if partial[i].0 == "id" then ("id", Str(id)) else partial[i]);
    if "id" in Keys(partial) then copied else copied + [("id", Str(id))]
  }

  lemma {:induction false} LookupOverwritten(partial: Entries, id: string, key: string)
    ensures var copied := seq(|partial|, i requires 0 <= i < |partial| =>
      if partial[i].0 == "id" then ("id", Str(id)) else partial[i]);
      && Lookup(copied, key) == (if key == "id" && "id" in Keys(partial) then Str(id)
                                 else Lookup(partial, key))
      && Keys(copied) == Keys(partial)
  {
    var copied := seq(|partial|, i requires 0 <= i < |partial| =>
      if partial[i].0 == "id" then ("id", Str(id)) else partial[i]);
    if partial != [] {
      var rest := partial[1..];
      LookupOverwritten(rest, id, key);
      var copiedRest := seq(|rest|, i requires 0 <= i < |rest| =>
        if rest[i].0 == "id" then ("id", Str(id)) else rest[i]);
      assert copied[1..] == copiedRest;
      assert Keys(partial) == {partial[0].0} + Keys(rest);
      assert Keys(copied) == {copied[0].0} + Keys(copiedRest);
    } else {
      assert Keys(partial) == {};
    }
  }

  lemma {:induction false} LookupAppendMissing(o: Entries, key: string, k: string, v: JsValue)
    requires key !in Keys(o)
    ensures Lookup(o + [(key, v)], k) == if k == key then v else Lookup(o, k)
  {
    if o == [] {
    } else {
      assert (o + [(key, v)])[1..] == o[1..] + [(key, v)];
      assert Keys(o[1..]) <= Keys(o);
      LookupAppendMissing(o[1..], key, k, v);
      if k == key {
        assert o[0].0 in Keys(o);
      }
    }
  }

  /** The payload has every field of the partial plus `id`; `id` is the path id whatever the
      partial said; every other field keeps its value; a partial without `id` keeps its order
      with `id` added last. */
  lemma UpdatePayloadFields(partial: Entries, id: string)
    ensures Keys(UpdatePayload(partial, id)) == Keys(partial) + {"id"}
    ensures Lookup(UpdatePayload(partial, id), "id") == Str(id)
    ensures forall k :: k != "id" ==> Lookup(UpdatePayload(partial, id), k) == Lookup(partial, k)
    ensures "id" !in Keys(partial) ==> UpdatePayload(partial, id) == partial + [("id", Str(id))]
  {
    var copied := seq(|partial|, i requires 0 <= i < |partial| =>
      if partial[i].0 == "id" then ("id", Str(id)) else partial[i]);
    LookupOverwritten(partial, id, "id");
    forall k | k != "id"
      ensures Lookup(UpdatePayload(partial, id), k) == Lookup(partial, k)
    {
      LookupOverwritten(partial, id, k);
      if "id" !in Keys(partial) {
        LookupAppendMissing(copied, "id", k, Str(id));
      }
    }
    if "id" !in Keys(partial) {
      LookupAppendMissing(copied, "id", "id", Str(id));
      assert copied == partial;
      var r := copied + [("id", Str(id))];
      assert Keys(r) == Keys(copied) + {"id"} by {
        assert r[|r| - 1].0 == "id";
        assert forall i :: 0 <= i < |copied| ==> r[i] == copied[i];
      }
    }
  }

  // ---------------------------------------------------------------- placeBid

  /** What a `placeBid` call ends in. */
  datatype BidOutcome = Placed | Rejected(message: string)

  /** `placeBid` on a response with status ok or not: a non-ok response throws its body text,
      or "Failed to place bid" when that text is empty. */
  function PlaceBidOutcome(ok: bool, responseText: string): (r: BidOutcome)
    ensures r.Placed? <==> ok
    ensures r.Rejected? ==> r.message != ""
    ensures r.Rejected? ==> (r.message == responseText <==> responseText != "")
    ensures r.Rejected? && responseText == "" ==> r.message == "Failed to place bid"
  {
    if ok then Placed
    else Rejected(if responseText != "" then responseText else "Failed to place bid")
  }
}
