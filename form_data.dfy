/**
 * The `log_reg_form` collection: the credential record its schema
 * declares, and the one write the login handler performs on it,
 * `findOneAndUpdate(filter, update, { upsert: true, new: true })`.
 */
module FormData {
  import opened Wrappers
  import opened Js

  /** One document of the collection. The schema types `phoneNumber` and
      `password` as strings and `pin` as a string that defaults to null.
      The password is kept as the value the request carried. */
  datatype Record = Record(phoneNumber: string, password: JsValue, pin: Option<string>)

  /** The schema's `required` constraints: a non-empty phone number and a
      password that is present. */
  predicate SchemaValid(r: Record): (ok: bool)
    ensures ok ==> r.phoneNumber != [] && r.password != Undefined && r.password != Null
  {
    r.phoneNumber != "" && Truthy(r.password)
  }

  /** The collection seen as a map from phone number to record. The unique
      index on `phoneNumber` is the statement that each record sits under
      its own phone number, so no two records share one. */
  predicate Keyed(m: map<string, Record>)
  {
    forall k :: k in m ==> m[k].phoneNumber == k
  }

  /** What the unique index promises: in a keyed collection no two records
      share a phone number. */
  lemma KeyedIsUnique(m: map<string, Record>, k1: string, k2: string)
    requires Keyed(m) && k1 in m && k2 in m
    ensures m[k1].phoneNumber == m[k2].phoneNumber <==> k1 == k2
  {
  }

  predicate AllSchemaValid(m: map<string, Record>)
  {
    forall k :: k in m ==> SchemaValid(m[k])
  }

  /** The keys of the records whose phone number is `phone`. */
  function RecordsWithPhone(m: map<string, Record>, phone: string): set<string>
  {
    set k | k in m && m[k].phoneNumber == phone
  }

  /** The update document `{ phoneNumber, password }` applied to an existing
      record: it sets those two fields and nothing else. */
  function ApplyUpdate(doc: Record, phone: string, password: JsValue): Record
  {
    doc.(phoneNumber := phone, password := password)
  }

  /** The document an upsert inserts when nothing matches: the filter's and
      the update's fields, with the schema default for `pin`. */
  function Inserted(phone: string, password: JsValue): Record
  {
    Record(phone, password, None)
  }

  /** `findOneAndUpdate({ phoneNumber: key }, { phoneNumber: key, password },
      { upsert: true })` on a collection that is accepted: afterwards there is
      a record for `key` carrying `password`; an existing record keeps its pin,
      a new one has none; every other record is as it was. */
  function Upsert(m: map<string, Record>, key: string, password: JsValue): (m': map<string, Record>)
    ensures forall k :: k in m' <==> k in m || k == key
    ensures m'[key].phoneNumber == key && m'[key].password == password
    ensures m'[key].pin == (if key in m then m[key].pin else None)
    ensures forall k :: k in m && k != key ==> m'[k] == m[k]
  {
    if key in m then m[key := ApplyUpdate(m[key], key, password)]
    else m[key := Inserted(key, password)]
  }

  /** An upsert keeps the collection keyed by phone number, and keeps the
      schema's constraints when its key and password satisfy them. */
  lemma UpsertKeepsInvariants(m: map<string, Record>, key: string, password: JsValue)
    ensures Keyed(m) ==> Keyed(Upsert(m, key, password))
    ensures AllSchemaValid(m) && key != "" && Truthy(password) ==> AllSchemaValid(Upsert(m, key, password))
  {
  }

  /** After an upsert exactly one record has the upserted phone number. */
  lemma UpsertLeavesOneRecord(m: map<string, Record>, key: string, password: JsValue)
    requires Keyed(m)
    ensures RecordsWithPhone(Upsert(m, key, password), key) == {key}
  {
  }

  /** Repeating an upsert changes nothing more. */
  lemma UpsertIdempotent(m: map<string, Record>, key: string, password: JsValue)
    ensures Upsert(Upsert(m, key, password), key, password) == Upsert(m, key, password)
  {
  }

  /** Two upserts of one key: the later password wins, and the record is the
      one a single upsert with that password leaves. */
  lemma UpsertLastWins(m: map<string, Record>, key: string, first: JsValue, second: JsValue)
    ensures Upsert(Upsert(m, key, first), key, second) == Upsert(m, key, second)
  {
  }

  /** Upserts of different keys touch disjoint records, so their order does
      not matter. */
  lemma UpsertsCommute(m: map<string, Record>, a: string, p: JsValue, b: string, q: JsValue)
    requires a != b
    ensures Upsert(Upsert(m, a, p), b, q) == Upsert(Upsert(m, b, q), a, p)
  {
  }

  /** What the write hands to the promise chain: the updated document
      (`new: true`) or the error it was rejected with. */
  datatype WriteResult = Written(user: Record) | Rejected(detail: string)

  /** The collection, updated in place by the handler. */
  class Store {
    var records: map<string, Record>

    ghost predicate Valid()
      reads this
    {
      Keyed(records)
    }

    constructor ()
      ensures Valid() && records == map[]
    {
      records := map[];
    }

    /** The upsert as one atomic step. `fault` is the store's verdict, which
        the model does not decide: `None` when the write is accepted,
        `Some(detail)` when it is rejected with that error. */
    method FindOneAndUpdate(key: string, password: JsValue, fault: Option<string>) returns (result: WriteResult)
      requires Valid()
      modifies this
      ensures Valid()
      ensures fault.None? ==> records == Upsert(old(records), key, password) && result == Written(records[key])
      ensures fault.Some? ==> records == old(records) && result == Rejected(fault.value)
    {
      if fault.None? {
        UpsertKeepsInvariants(records, key, password);
        records := Upsert(records, key, password);
        result := Written(records[key]);
      } else {
        result := Rejected(fault.value);
      }
    }
  }
}
