/**
 * ContractService (lib/Service/ContractService.php): input validation, the
 * owner check, and create / update / delete / archive / restore over the
 * contracts table. The table is an in-memory map from id to row standing in
 * for ContractMapper; the clock is the parameter `now`.
 */
module Contracts {
  import opened Common
  import opened Text
  import opened Calendar
  import opened ContractEntity

  // ---------------------------------------------------------------------
  // The contracts table

  class ContractMapper {
    var rows: map<int, ContractRecord>
    var nextId: int

    ghost predicate Valid()
      reads this
    {
      forall id :: id in rows ==> rows[id].id == id && id < nextId && ValidRecord(rows[id])
    }

    constructor ()
      ensures Valid() && rows == map[]
    {
      rows := map[];
      nextId := 1;
    }

    /** insert(): the row gets the next auto-increment id. */
    method Insert(c: Contract) returns (r: ContractRecord)
      requires Valid() && c.Valid()
      modifies this, c`id
      ensures Valid()
      ensures r == old(c.Record()).(id := old(nextId)) && c.Record() == r
      ensures old(nextId) !in old(rows) && rows == old(rows)[r.id := r]
      ensures nextId > old(nextId)
    {
      c.id := nextId;
      r := c.Record();
      rows := rows[nextId := r];
      nextId := nextId + 1;
    }

    /** update(): the entity's row is overwritten with its current fields. */
    method Update(c: Contract) returns (r: ContractRecord)
      requires Valid() && c.Valid() && c.id in rows
      modifies this`rows
      ensures Valid()
      ensures r == c.Record() && rows == old(rows)[c.id := r]
    {
      r := c.Record();
      rows := rows[c.id := r];
    }

    method Delete(c: Contract) returns (r: ContractRecord)
      requires Valid()
      modifies this`rows
      ensures Valid()
      ensures r == c.Record() && rows == old(rows) - {c.id}
    {
      r := c.Record();
      rows := rows - {c.id};
    }
  }

  // ---------------------------------------------------------------------
  // Validation

  const MaxStringLength := 500
  const MaxNotesLength := 5000

  const ValidStatuses := [StatusActive, StatusCancelled, StatusEnded]

  const NameRequired := "Name ist erforderlich"
  const VendorRequired := "Vertragspartner ist erforderlich"
  const EndBeforeStart := "Enddatum muss nach Startdatum liegen"
  const InvalidStatus := "Ung\U{FC}ltiger Status"
  const NameTooLong := "Name ist zu lang (max. " + NatToString(MaxStringLength) + " Zeichen)"
  const VendorTooLong := "Vertragspartner ist zu lang (max. " + NatToString(MaxStringLength) + " Zeichen)"
  const NotesTooLong := "Notizen sind zu lang (max. " + NatToString(MaxNotesLength) + " Zeichen)"

  /** The request data validate() looks at; None is a key that is absent or null. */
  datatype ContractData = ContractData(
    name: Option<string>,
    vendor: Option<string>,
    startDate: Option<Date>,
    endDate: Option<Date>,
    status: Option<string>,
    notes: Option<string>)

  /** PHP empty() on a string-or-null: null, "" and "0" are empty. */
  predicate Empty(v: Option<string>)
  {
    v.None? || v.value == "" || v.value == "0"
  }

  /** A required field that is empty() or only whitespace. */
  predicate Missing(v: Option<string>)
  {
    Empty(v) || Trim(v.value) == ""
  }

  /** A non-empty field whose UTF-8 byte length (strlen) exceeds max. */
  predicate TooLong(v: Option<string>, max: nat)
  {
    !Empty(v) && Utf8Length(v.value) > max
  }

  predicate DatesOutOfOrder(data: ContractData)
  {
    && data.startDate.Some? && data.endDate.Some?
    && ValidDate(data.startDate.value) && ValidDate(data.endDate.value)
    && Ordinal(data.startDate.value) >= Ordinal(data.endDate.value)
  }

  predicate UnknownStatus(data: ContractData)
  {
    !Empty(data.status) && data.status.value !in ValidStatuses
  }

  datatype Outcome = Pass | Fail(failure: Failure)

  /**
   * validate(): collects one message per offending field and fails with
   * all of them, or passes when there are none.
   */
  method Validate(data: ContractData) returns (r: Outcome)
    ensures r.Pass? <==> !Missing(data.name) && !Missing(data.vendor) && !DatesOutOfOrder(data)
                         && !UnknownStatus(data) && !TooLong(data.name, MaxStringLength)
                         && !TooLong(data.vendor, MaxStringLength) && !TooLong(data.notes, MaxNotesLength)
    ensures r.Fail? ==> r.failure.Invalid? && r.failure.errors != map[]
    ensures r.Fail? ==> var e := r.failure.errors;
      && e.Keys <= {"name", "vendor", "endDate", "status", "notes"}
      && ("name" in e <==> Missing(data.name) || TooLong(data.name, MaxStringLength))
      && ("name" in e ==> e["name"] == if TooLong(data.name, MaxStringLength) then NameTooLong else NameRequired)
      && ("vendor" in e <==> Missing(data.vendor) || TooLong(data.vendor, MaxStringLength))
      && ("vendor" in e ==> e["vendor"] == if TooLong(data.vendor, MaxStringLength) then VendorTooLong else VendorRequired)
      && ("endDate" in e <==> DatesOutOfOrder(data)) && ("endDate" in e ==> e["endDate"] == EndBeforeStart)
      && ("status" in e <==> UnknownStatus(data)) && ("status" in e ==> e["status"] == InvalidStatus)
      && ("notes" in e <==> TooLong(data.notes, MaxNotesLength)) && ("notes" in e ==> e["notes"] == NotesTooLong)
  {
    var nameMissing, vendorMissing := Missing(data.name), Missing(data.vendor);
    var datesOutOfOrder, unknownStatus := DatesOutOfOrder(data), UnknownStatus(data);
    var nameTooLong, vendorTooLong := TooLong(data.name, MaxStringLength), TooLong(data.vendor, MaxStringLength);
    var notesTooLong := TooLong(data.notes, MaxNotesLength);
    var errors: map<string, string> := map[];
    if nameMissing {
      errors := errors["name" := NameRequired];
    }
    if vendorMissing {
      errors := errors["vendor" := VendorRequired];
    }
    if datesOutOfOrder {
      errors := errors["endDate" := EndBeforeStart];
    }
    if unknownStatus {
      errors := errors["status" := InvalidStatus];
    }
    if nameTooLong {
      errors := errors["name" := NameTooLong];
    }
    if vendorTooLong {
      errors := errors["vendor" := VendorTooLong];
    }
    if notesTooLong {
      errors := errors["notes" := NotesTooLong];
    }
    if errors != map[] {
      r := Fail(Invalid(errors));
    } else {
      assert "name" !in errors && "vendor" !in errors && "endDate" !in errors;
      assert "status" !in errors && "notes" !in errors;
      r := Pass;
    }
  }

  /** checkAccess(): only the creator of a contract may touch it. */
  function CheckAccess(c: ContractRecord, userId: string): (r: Outcome)
    ensures r.Pass? <==> c.createdBy == userId
    ensures r.Fail? ==> r.failure == Forbidden
  {
    if c.createdBy != userId then Fail(Forbidden) else Pass
  }

  // ---------------------------------------------------------------------
  // The service

  /** The arguments create() and update() share. */
  datatype ContractFields = ContractFields(
    name: string,
    vendor: string,
    startDate: Date,
    endDate: Date,
    cancellationPeriod: string,
    contractType: string,
    categoryId: Option<int>,
    renewalPeriod: Option<string>,
    cost: Option<string>,
    currency: Option<string>,
    costInterval: Option<string>,
    contractFolder: Option<string>,
    mainDocument: Option<string>,
    reminderEnabled: bool,
    reminderDays: Option<int>,
    notes: Option<string>)

  predicate ValidFields(f: ContractFields)
  {
    ValidDate(f.startDate) && ValidDate(f.endDate)
  }

  /** A row with the shared arguments of create() and update() written into it. */
  function WithFields(r: ContractRecord, f: ContractFields): ContractRecord
  {
    r.(name := f.name, vendor := f.vendor, categoryId := f.categoryId,
       startDate := Some(f.startDate), endDate := Some(f.endDate),
       cancellationPeriod := f.cancellationPeriod, contractType := f.contractType,
       renewalPeriod := f.renewalPeriod, cost := f.cost, currency := Some(f.currency.GetOr("EUR")),
       costInterval := f.costInterval, contractFolder := f.contractFolder,
       mainDocument := f.mainDocument, reminderEnabled := if f.reminderEnabled then 1 else 0,
       reminderDays := f.reminderDays, notes := f.notes)
  }

  class ContractService {
    const mapper: ContractMapper

    constructor (m: ContractMapper)
      ensures mapper == m
    {
      mapper := m;
    }

    /** find(): the row with this id, or NotFound. */
    function Find(id: int): (r: Result<ContractRecord>)
      reads mapper
      ensures r.Ok? <==> id in mapper.rows
      ensures r.Ok? ==> r.value == mapper.rows[id]
      ensures r.Err? ==> r.failure == NotFound
    {
      if id in mapper.rows then Ok(mapper.rows[id]) else Err(NotFound)
    }

    /** Loads an existing row and applies the owner check, as every mutator does first. */
    function Access(id: int, userId: string): (r: Result<ContractRecord>)
      reads mapper
      ensures r.Ok? <==> id in mapper.rows && mapper.rows[id].createdBy == userId
      ensures r.Ok? ==> r.value == mapper.rows[id]
      ensures r.Err? && id !in mapper.rows ==> r.failure == NotFound
      ensures r.Err? && id in mapper.rows ==> r.failure == Forbidden
    {
      match Find(id)
      case Err(f) => Err(f)
      case Ok(c) => if CheckAccess(c, userId).Fail? then Err(Forbidden) else Ok(c)
    }

    method Create(f: ContractFields, userId: string, now: Instant) returns (r: ContractRecord)
      requires mapper.Valid() && ValidFields(f) && ValidInstant(now)
      modifies mapper
      ensures mapper.Valid()
      ensures r.id !in old(mapper.rows) && mapper.rows == old(mapper.rows)[r.id := r]
      ensures r.status == StatusActive && r.createdBy == userId
      ensures r.currency == Some(if f.currency.Some? then f.currency.value else "EUR")
      ensures r.reminderEnabled == (if f.reminderEnabled then 1 else 0)
      ensures r.archived == 0 && r.isPrivate == 0 && r.deletedAt == None
      ensures r.name == f.name && r.vendor == f.vendor && r.endDate == Some(f.endDate)
      ensures r.createdAt == Some(now) && r.updatedAt == Some(now)
      ensures r == WithFields(r, f)
    {
      var c := new Contract.FromRecord(WithFields(DefaultRecord(), f).(
        status := StatusActive, createdBy := userId, createdAt := Some(now), updatedAt := Some(now)));
      r := mapper.Insert(c);
    }

    method Update(id: int, userId: string, f: ContractFields, status: Option<string>, now: Instant)
      returns (r: Result<ContractRecord>)
      requires mapper.Valid() && ValidFields(f) && ValidInstant(now)
      modifies mapper`rows
      ensures mapper.Valid()
      ensures r.Err? ==> r == old(Access(id, userId)) && mapper.rows == old(mapper.rows)
      ensures r.Ok? <==> old(Access(id, userId)).Ok?
      ensures r.Ok? ==> var before := old(mapper.rows)[id];
        && r.value == WithFields(before, f).(
             status := if status.Some? then status.value else before.status,
             updatedAt := Some(now))
        && mapper.rows == old(mapper.rows)[id := r.value]
    {
      var found := Access(id, userId);
      if found.Err? {
        return Err(found.failure);
      }
      var status' := if status.Some? then status.value else found.value.status;
      var c := new Contract.FromRecord(WithFields(found.value, f).(status := status', updatedAt := Some(now)));
      var row := mapper.Update(c);
      r := Ok(row);
    }

    method Delete(id: int, userId: string) returns (r: Result<ContractRecord>)
      requires mapper.Valid()
      modifies mapper`rows
      ensures mapper.Valid()
      ensures r.Err? ==> r == old(Access(id, userId)) && mapper.rows == old(mapper.rows)
      ensures r.Ok? <==> old(Access(id, userId)).Ok?
      ensures r.Ok? ==> r.value == old(mapper.rows)[id] && mapper.rows == old(mapper.rows) - {id}
    {
      var found := Access(id, userId);
      if found.Err? {
        return Err(found.failure);
      }
      var c := new Contract.FromRecord(found.value);
      var row := mapper.Delete(c);
      r := Ok(row);
    }

    /** archive() and restore(): only the archived flag and updatedAt change. */
    method SetArchivedFlag(id: int, userId: string, archived: bool, now: Instant)
      returns (r: Result<ContractRecord>)
      requires mapper.Valid() && ValidInstant(now)
      modifies mapper`rows
      ensures mapper.Valid()
      ensures r.Err? ==> r == old(Access(id, userId)) && mapper.rows == old(mapper.rows)
      ensures r.Ok? <==> old(Access(id, userId)).Ok?
      ensures r.Ok? ==> && r.value == old(mapper.rows)[id].(archived := if archived then 1 else 0, updatedAt := Some(now))
                        && mapper.rows == old(mapper.rows)[id := r.value]
    {
      var found := Access(id, userId);
      if found.Err? {
        return Err(found.failure);
      }
      var c := new Contract.FromRecord(found.value);
      c.SetArchived(Bool(archived));
      c.updatedAt := Some(now);
      var row := mapper.Update(c);
      r := Ok(row);
    }

    method Archive(id: int, userId: string, now: Instant) returns (r: Result<ContractRecord>)
      requires mapper.Valid() && ValidInstant(now)
      modifies mapper`rows
      ensures mapper.Valid()
      ensures r.Err? ==> r == old(Access(id, userId)) && mapper.rows == old(mapper.rows)
      ensures r.Ok? <==> old(Access(id, userId)).Ok?
      ensures r.Ok? ==> && r.value == old(mapper.rows)[id].(archived := 1, updatedAt := Some(now))
                        && mapper.rows == old(mapper.rows)[id := r.value]
    {
      r := SetArchivedFlag(id, userId, true, now);
    }

    method Restore(id: int, userId: string, now: Instant) returns (r: Result<ContractRecord>)
      requires mapper.Valid() && ValidInstant(now)
      modifies mapper`rows
      ensures mapper.Valid()
      ensures r.Err? ==> r == old(Access(id, userId)) && mapper.rows == old(mapper.rows)
      ensures r.Ok? <==> old(Access(id, userId)).Ok?
      ensures r.Ok? ==> && r.value == old(mapper.rows)[id].(archived := 0, updatedAt := Some(now))
                        && mapper.rows == old(mapper.rows)[id := r.value]
    {
      r := SetArchivedFlag(id, userId, false, now);
    }
  }
}
