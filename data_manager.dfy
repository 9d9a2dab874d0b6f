/** Backup and restore of the app's data: export gathers three collections of
    the local store into one versioned document, import validates such a
    document and writes the three collections back. Values are the parsed
    JSON values; turning them into text and back is left to the caller. */
module DataManager {
  import opened Common

  /** A parsed JSON value (numbers are whole numbers here). */
  datatype Json =
    | JNull
    | JBool(b: bool)
    | JNum(n: int)
    | JStr(s: string)
    | JArr(items: seq<Json>)
    | JObj(fields: map<string, Json>)

  /** JavaScript truthiness, with `None` standing for `undefined`: every value
      is truthy except `undefined`, `null`, `false`, `0` and the empty string. */
  predicate Truthy(v: Option<Json>)
    ensures Truthy(v) <==> v.Some? && v.value !in {JNull, JBool(false), JNum(0), JStr("")}
  {
    match v
    case None => false
    case Some(JNull) => false
    case Some(JBool(b)) => b
    case Some(JNum(n)) => n != 0
    case Some(JStr(s)) => s != ""
    case Some(JArr(_)) => true
    case Some(JObj(_)) => true
  }

  predicate IsArray(v: Option<Json>)
  {
    v.Some? && v.value.JArr?
  }

  /** `value.field`: present only on an object that has the field. */
  function Field(v: Json, name: string): (r: Option<Json>)
    ensures r.Some? <==> v.JObj? && name in v.fields
    ensures r.Some? ==> r.value == v.fields[name]
  {
    if v.JObj? && name in v.fields then Some(v.fields[name]) else None
  }

  /** `value || []`. */
  function OrEmpty(v: Option<Json>): (r: Json)
    ensures Truthy(v) ==> r == v.value
    ensures !Truthy(v) ==> r == JArr([])
  {
    if Truthy(v) then v.value else JArr([])
  }

  /** The store keys of the three collections. */
  const HabitsKey := "habits"
  const JournalKey := "journal_entries"
  const SlotsKey := "time_slots"

  /** The version every export carries. */
  const Version := "1.0"

  /** `JSON.parse(localStorage.getItem(key) || '[]')`: a missing key reads as
      the empty list. */
  function Read(store: map<string, Json>, key: string): (v: Json)
    ensures key in store ==> v == store[key]
    ensures key !in store ==> v == JArr([])
  {
    if key in store then store[key] else JArr([])
  }

  /** `exportData`: the three collections, the export time and the version. */
  function Export(store: map<string, Json>, exportDate: string): (doc: Json)
    ensures doc.JObj?
    ensures Field(doc, "version") == Some(JStr(Version))
    ensures Field(doc, "habits") == Some(Read(store, HabitsKey))
    ensures Field(doc, "journalEntries") == Some(Read(store, JournalKey))
    ensures Field(doc, "timeSlots") == Some(Read(store, SlotsKey))
    ensures Field(doc, "exportDate") == Some(JStr(exportDate))
  {
    JObj(map[
      "habits" := Read(store, HabitsKey),
      "journalEntries" := Read(store, JournalKey),
      "timeSlots" := Read(store, SlotsKey),
      "exportDate" := JStr(exportDate),
      "version" := JStr(Version)])
  }

  /** The check `importData` makes before writing anything: a truthy
      `version` and an array `habits`. */
  predicate Acceptable(doc: Json)
    ensures Acceptable(doc) ==> doc.JObj? && "version" in doc.fields && "habits" in doc.fields
    ensures Acceptable(doc) ==> doc.fields["habits"].JArr? && doc.fields["version"] != JStr("")
  {
    Truthy(Field(doc, "version")) && IsArray(Field(doc, "habits"))
  }

  /** `importData` on the store: `None` when the document is refused (and
      nothing is written); otherwise the store with `habits` set to the
      document's list and the other two collections set to the document's
      values, or to the empty list when those are missing or falsy. No other
      key changes. */
  function Import(store: map<string, Json>, doc: Json): (r: Option<map<string, Json>>)
    ensures r.Some? <==> Acceptable(doc)
    ensures r.Some? ==> r.value.Keys == store.Keys + {HabitsKey, JournalKey, SlotsKey}
    ensures r.Some? ==> r.value[HabitsKey] == Field(doc, "habits").value
    ensures r.Some? ==> r.value[JournalKey] == OrEmpty(Field(doc, "journalEntries"))
    ensures r.Some? ==> r.value[SlotsKey] == OrEmpty(Field(doc, "timeSlots"))
    ensures r.Some? ==> forall k :: k in store && k !in {HabitsKey, JournalKey, SlotsKey} ==> r.value[k] == store[k]
  {
    if !Acceptable(doc) then None
    else Some(store[HabitsKey := OrEmpty(Field(doc, "habits"))]
                   [JournalKey := OrEmpty(Field(doc, "journalEntries"))]
                   [SlotsKey := OrEmpty(Field(doc, "timeSlots"))])
  }

  /** The three collections as the app stores them: each missing or a list. */
  predicate WellFormed(store: map<string, Json>)
  {
    forall k :: k in {HabitsKey, JournalKey, SlotsKey} && k in store ==> store[k].JArr?
  }

  /** Importing what was exported restores the three collections as export
      read them, keeps every other key, and a second export yields the same
      document. */
  lemma ExportImportRoundTrip(store: map<string, Json>, exportDate: string)
    requires WellFormed(store)
    ensures Import(store, Export(store, exportDate)).Some?
    ensures var s := Import(store, Export(store, exportDate)).value;
      && WellFormed(s)
      && Read(s, HabitsKey) == Read(store, HabitsKey)
      && Read(s, JournalKey) == Read(store, JournalKey)
      && Read(s, SlotsKey) == Read(store, SlotsKey)
      && (forall k :: k in store && k !in {HabitsKey, JournalKey, SlotsKey} ==> s[k] == store[k])
      && Export(s, exportDate) == Export(store, exportDate)
  {
    var doc := Export(store, exportDate);
    assert Field(doc, "version") == Some(JStr(Version));
    assert Read(store, HabitsKey).JArr?;
    var s := Import(store, doc).value;
    assert Read(s, JournalKey) == Read(store, JournalKey) by {
      assert Read(store, JournalKey).JArr?;
    }
    assert Read(s, SlotsKey) == Read(store, SlotsKey) by {
      assert Read(store, SlotsKey).JArr?;
    }
  }

  /** A stored `habits` value that is not a list makes the export unreadable
      by the import. */
  lemma ExportOfMalformedHabitsRefused(store: map<string, Json>, exportDate: string)
    requires HabitsKey in store && !store[HabitsKey].JArr?
    ensures Import(store, Export(store, exportDate)).None?
  {
    assert Field(Export(store, exportDate), "habits") == Some(store[HabitsKey]);
  }

  /** The browser's local storage, as far as these two operations use it. */
  class LocalStore {
    var data: map<string, Json>

    constructor (initial: map<string, Json>)
      ensures data == initial
    {
      data := initial;
    }

    /** `exportData`: the document built from the store as it is now, with
        the three collections (missing ones as empty lists), the export date
        and version "1.0". */
    function ExportData(exportDate: string): (doc: Json)
      reads this
      ensures doc.JObj?
      ensures Field(doc, "version") == Some(JStr(Version))
      ensures Field(doc, "habits") == Some(if HabitsKey in data then data[HabitsKey] else JArr([]))
      ensures Field(doc, "journalEntries") == Some(if JournalKey in data then data[JournalKey] else JArr([]))
      ensures Field(doc, "timeSlots") == Some(if SlotsKey in data then data[SlotsKey] else JArr([]))
      ensures Field(doc, "exportDate") == Some(JStr(exportDate))
    {
      Export(data, exportDate)
    }

    /** `importData`: refuses a document without a truthy `version` or with a
        `habits` that is not a list, writing nothing; otherwise writes the
        three collections one key after another. */
    method ImportData(doc: Json) returns (ok: bool)
      modifies this
      ensures ok <==> Acceptable(doc)
      ensures !ok ==> data == old(data)
      ensures ok ==> Some(data) == Import(old(data), doc)
    {
      if !Truthy(Field(doc, "version")) || !IsArray(Field(doc, "habits")) {
        return false;
      }
      data := data[HabitsKey := OrEmpty(Field(doc, "habits"))];
      data := data[JournalKey := OrEmpty(Field(doc, "journalEntries"))];
      data := data[SlotsKey := OrEmpty(Field(doc, "timeSlots"))];
      ok := true;
    }
  }
}
