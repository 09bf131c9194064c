/**
 * The browser client's reservation-types service: it keeps the entries of
 * the server's answer that have a label and a value and are active, and
 * falls back to one built-in type when the request fails.
 */
module ReservationTypesService {
  import opened Wrappers
  import opened Text
  import opened Json
  import ReservationTypeModels
  import ReservationTypesEndpoint

  /** The fetch threw, or it answered with a status that is or is not OK and the body read (None when reading threw). */
  datatype TypesReply = FetchThrew | Reply(ok: bool, body: Option<JsonValue>)

  /** `typeof x === 'string' && x.trim() !== ''`. */
  predicate NonBlankString(v: JsonValue) {
    v.Str? && JsTrim(v.s) != ""
  }

  /** The filter's test: a truthy entry with a non-blank `Value` and `Label` and `IsActive` exactly true. */
  predicate IsValidType(v: JsonValue) {
    Truthy(v) && NonBlankString(Get(v, "Value")) && NonBlankString(Get(v, "Label")) && Get(v, "IsActive") == Bool(true)
  }

  /** `items.filter(keep)`: the entries that pass `keep`, in order. */
  function Filter(items: seq<JsonValue>, keep: JsonValue -> bool): (r: seq<JsonValue>)
    ensures |r| <= |items|
    ensures forall v :: v in r ==> v in items && keep(v)
  {
    if items == [] then []
    else (if keep(items[0]) then [items[0]] else []) + Filter(items[1..], keep)
  }

  /** `data.filter(IsValidType)`. */
  function FilterValid(items: seq<JsonValue>): (r: seq<JsonValue>)
    ensures |r| <= |items|
    ensures forall v :: v in r ==> v in items && IsValidType(v)
  {
    Filter(items, IsValidType)
  }

  /** A text that starts with a character JavaScript does not trim is not blank. */
  lemma NotBlank(s: string)
    requires s != [] && !IsJsWhiteSpace(s[0])
    ensures JsTrim(s) != ""
  {
  }

  /** An active type whose label and value are not blank to JavaScript serialises to an entry that passes the test. */
  lemma ValidWhenNotBlank(t: ReservationTypeModels.ReservationType)
    requires t.isActive && JsTrim(t.typeLabel) != "" && JsTrim(t.value) != ""
    ensures IsValidType(ReservationTypeModels.ToJson(t))
  {
  }

  /** An active type whose label and value start with a character JavaScript does not trim passes the test. */
  lemma ValidWhenLeadingText(t: ReservationTypeModels.ReservationType)
    requires t.isActive && t.typeLabel != [] && !IsJsWhiteSpace(t.typeLabel[0])
    requires t.value != [] && !IsJsWhiteSpace(t.value[0])
    ensures IsValidType(ReservationTypeModels.ToJson(t))
  {
    NotBlank(t.typeLabel);
    NotBlank(t.value);
    ValidWhenNotBlank(t);
  }

  /** The one built-in type: regular dining, no deposit, active. */
  const DEFAULT_TYPE := ReservationTypeModels.ReservationType("Regular Dining", "regular", "No deposit required", 0.0, true)

  /** The built-in list, in the server's serialised shape. */
  function DefaultReservationTypes(): (r: seq<JsonValue>)
    ensures |r| == 1 && IsValidType(r[0])
  {
    ValidWhenLeadingText(DEFAULT_TYPE);
    [ReservationTypeModels.ToJson(DEFAULT_TYPE)]
  }

  /**
   * The list the pages receive: the filtered entries of an OK array answer
   * (possibly none), and the built-in list otherwise. A non-OK status throws
   * before the body is read; a body that is not an array has no `filter`
   * and throws too.
   */
  function GetReservationTypes(reply: TypesReply): (r: seq<JsonValue>)
    ensures !(reply.Reply? && reply.ok && reply.body.Some? && reply.body.value.Arr?) ==> r == DefaultReservationTypes()
    ensures reply.Reply? && reply.ok && reply.body.Some? && reply.body.value.Arr? ==> r == FilterValid(reply.body.value.items)
  {
    if reply.Reply? && reply.ok && reply.body.Some? && reply.body.value.Arr? then
      FilterValid(reply.body.value.items)
    else
      DefaultReservationTypes()
  }

  // ----------------------------------------------------------- lemmas

  /** An entry is kept exactly when it is in the answer and passes the test. */
  lemma {:induction false} FilterMembership(items: seq<JsonValue>, keep: JsonValue -> bool, v: JsonValue)
    ensures v in Filter(items, keep) <==> v in items && keep(v)
    decreases |items|
  {
    if items != [] {
      FilterMembership(items[1..], keep, v);
      assert items == [items[0]] + items[1..];
    }
  }

  /** Filtering distributes over concatenation: kept entries stay in answer order, unchanged. */
  lemma {:induction false} FilterAppend(a: seq<JsonValue>, b: seq<JsonValue>, keep: JsonValue -> bool)
    ensures Filter(a + b, keep) == Filter(a, keep) + Filter(b, keep)
    decreases |a|
  {
    if a == [] {
      assert a + b == b;
    } else {
      assert (a + b)[0] == a[0];
      assert (a + b)[1..] == a[1..] + b;
      FilterAppend(a[1..], b, keep);
    }
  }

  /** Filtering one entry keeps it exactly when it passes the test. */
  lemma FilterSingle(v: JsonValue, keep: JsonValue -> bool)
    ensures Filter([v], keep) == if keep(v) then [v] else []
  {
    assert [v][1..] == [];
  }

  /** Filtering what the filter returned changes nothing. */
  lemma {:induction false} FilterIdempotent(items: seq<JsonValue>, keep: JsonValue -> bool)
    ensures Filter(Filter(items, keep), keep) == Filter(items, keep)
    decreases |items|
  {
    if items != [] {
      var head := if keep(items[0]) then [items[0]] else [];
      FilterIdempotent(items[1..], keep);
      FilterAppend(head, Filter(items[1..], keep), keep);
      if keep(items[0]) {
        FilterSingle(items[0], keep);
      }
    }
  }

  /** A list of valid entries passes through whole. */
  lemma {:induction false} FilterKeepsValid(items: seq<JsonValue>, keep: JsonValue -> bool)
    requires forall v :: v in items ==> keep(v)
    ensures Filter(items, keep) == items
    decreases |items|
  {
    if items != [] {
      FilterKeepsValid(items[1..], keep);
      assert items == [items[0]] + items[1..];
    }
  }

  /** The built-in entry passes the test. */
  lemma DefaultTypesValid()
    ensures forall v :: v in DefaultReservationTypes() ==> IsValidType(v)
  {
    SingleValid(DefaultReservationTypes(), IsValidType);
  }

  lemma SingleValid(d: seq<JsonValue>, keep: JsonValue -> bool)
    requires |d| == 1 && keep(d[0])
    ensures forall v :: v in d ==> keep(v)
  {
    assert d == [d[0]];
  }

  /** Every entry the pages receive passes the test. */
  lemma ReceivedTypesValid(reply: TypesReply)
    ensures forall v :: v in GetReservationTypes(reply) ==> IsValidType(v)
  {
    if reply.Reply? && reply.ok && reply.body.Some? && reply.body.value.Arr? {
      assert GetReservationTypes(reply) == FilterValid(reply.body.value.items);
    } else {
      DefaultTypesValid();
    }
  }

  /** Entries that all fail the test leave nothing. */
  lemma {:induction false} FilterDropsInvalid(items: seq<JsonValue>, keep: JsonValue -> bool)
    requires forall v :: v in items ==> !keep(v)
    ensures Filter(items, keep) == []
    decreases |items|
  {
    if items != [] {
      assert items[0] in items;
      assert forall v :: v in items[1..] ==> v in items;
      FilterDropsInvalid(items[1..], keep);
    }
  }

  /** An OK answer whose entries all fail the test gives an empty list, not the built-in one. */
  lemma AllFilteredGivesEmpty(items: seq<JsonValue>)
    requires forall v :: v in items ==> !IsValidType(v)
    ensures GetReservationTypes(Reply(true, Some(Arr(items)))) == []
  {
    FilterDropsInvalid(items, IsValidType);
  }

  /** A failed request of any kind gives the built-in list. */
  lemma FailureGivesDefault(reply: TypesReply)
    requires reply.FetchThrew? || !reply.ok || reply.body.None?
    ensures GetReservationTypes(reply) == DefaultReservationTypes()
  {
  }

  /** The client's built-in list is the server's built-in catalog as the server serialises it. */
  lemma DefaultsAgree()
    ensures DefaultReservationTypes() == [ReservationTypeModels.ToJson(ReservationTypesEndpoint.DefaultReservationTypes()[0])]
  {
  }

  /**
   * A type the server serves passes the client's test unless its label or
   * value begins with U+FEFF, which .NET does not trim and JavaScript does.
   */
  lemma ServedTypePassesFilter(t: ReservationTypeModels.ReservationType)
    requires ReservationTypesEndpoint.Served(t)
    requires t.typeLabel[0] != '\U{FEFF}' && t.value[0] != '\U{FEFF}'
    ensures IsValidType(ReservationTypeModels.ToJson(t))
  {
    assert !IsJsWhiteSpace(t.typeLabel[0]);
    assert !IsJsWhiteSpace(t.value[0]);
  }

  /** The exception: an active "regular" type labelled with one U+FEFF is served by the server and dropped by the client. */
  lemma ByteOrderMarkLabelDropped(t: ReservationTypeModels.ReservationType)
    requires t.typeLabel == "\U{FEFF}" && t.value == "regular" && t.isActive
    ensures ReservationTypesEndpoint.Served(t) && !IsValidType(ReservationTypeModels.ToJson(t))
  {
    assert JsTrim(t.typeLabel) == "";
  }

  /** The JSON array the server writes for a list of types. */
  function SerialiseAll(ts: seq<ReservationTypeModels.ReservationType>): (js: seq<JsonValue>)
    ensures |js| == |ts| && forall i :: 0 <= i < |ts| ==> js[i] == ReservationTypeModels.ToJson(ts[i])
  {
    seq(|ts|, i requires 0 <= i < |ts| => ReservationTypeModels.ToJson(ts[i]))
  }

  /**
   * A list of served types, none beginning with U+FEFF, reaches the pages
   * whole and in order when the server answers with it.
   */
  lemma ServedCatalogKept(ts: seq<ReservationTypeModels.ReservationType>)
    requires forall t :: t in ts ==> ReservationTypesEndpoint.Served(t) && t.typeLabel[0] != '\U{FEFF}' && t.value[0] != '\U{FEFF}'
    ensures GetReservationTypes(Reply(true, Some(Arr(SerialiseAll(ts))))) == SerialiseAll(ts)
  {
    var js := SerialiseAll(ts);
    forall v | v in js
      ensures IsValidType(v)
    {
      var i :| 0 <= i < |js| && js[i] == v;
      assert ts[i] in ts;
      ServedTypePassesFilter(ts[i]);
    }
    FilterKeepsValid(js, IsValidType);
  }
}
