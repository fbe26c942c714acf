/**
 * The contract record (lib/Db/Contract.php): a row of the contracts table,
 * the entity object the services load it into, the entity's own setters and
 * its JSON view.
 */
module ContractEntity {
  import opened Common
  import opened Calendar

  const StatusActive := "active"
  const StatusCancelled := "cancelled"
  const StatusEnded := "ended"
  const TypeFixed := "fixed"
  const TypeAutoRenewal := "auto_renewal"

  /** A row of the contracts table: every column of the entity. */
  datatype ContractRecord = ContractRecord(
    id: int,
    name: string,
    vendor: string,
    status: string,
    categoryId: Option<int>,
    startDate: Option<Date>,
    endDate: Option<Date>,
    cancellationPeriod: string,
    contractType: string,
    renewalPeriod: Option<string>,
    cost: Option<string>,
    currency: Option<string>,
    costInterval: Option<string>,
    contractFolder: Option<string>,
    mainDocument: Option<string>,
    reminderEnabled: int,
    reminderDays: Option<int>,
    notes: Option<string>,
    archived: int,
    isPrivate: int,
    deletedAt: Option<Instant>,
    createdBy: string,
    createdAt: Option<Instant>,
    updatedAt: Option<Instant>)

  predicate ValidOptionalDate(d: Option<Date>)
  {
    d.Some? ==> ValidDate(d.value)
  }

  predicate ValidOptionalInstant(t: Option<Instant>)
  {
    t.Some? ==> ValidInstant(t.value)
  }

  /** Dates and timestamps that a DATE / DATETIME column can hold. */
  predicate ValidRecord(r: ContractRecord)
  {
    && ValidOptionalDate(r.startDate) && ValidOptionalDate(r.endDate)
    && ValidOptionalInstant(r.deletedAt) && ValidOptionalInstant(r.createdAt)
    && ValidOptionalInstant(r.updatedAt)
  }

  /** The bool|int argument of setArchived and setIsPrivate. */
  datatype BoolOrInt = Bool(b: bool) | Int(i: int)

  /** true/false become 1/0; an integer is stored as given. */
  function ToFlag(v: BoolOrInt): (n: int)
    ensures v.Bool? ==> (n == 1 <==> v.b) && (n == 0 <==> !v.b)
    ensures v.Int? ==> n == v.i
  {
    match v
    case Bool(b) => if b then 1 else 0
    case Int(i) => i
  }

  /** What jsonSerialize() hands to the front end. */
  datatype ContractJson = ContractJson(
    id: int,
    name: string,
    vendor: string,
    status: string,
    categoryId: Option<int>,
    startDate: Option<string>,
    endDate: Option<string>,
    cancellationPeriod: string,
    contractType: string,
    renewalPeriod: Option<string>,
    cost: Option<string>,
    currency: Option<string>,
    costInterval: Option<string>,
    contractFolder: Option<string>,
    mainDocument: Option<string>,
    reminderEnabled: bool,
    reminderDays: Option<int>,
    notes: Option<string>,
    archived: bool,
    isPrivate: bool,
    deletedAt: Option<Instant>,
    createdBy: string,
    createdAt: Option<Instant>,
    updatedAt: Option<Instant>)

  function FormatDate(d: Option<Date>): (s: Option<string>)
    requires ValidOptionalDate(d)
    ensures s.Some? <==> d.Some?
    ensures d.Some? ==> s.value == Ymd(d.value)
  {
    match d
    case None => None
    case Some(v) => Some(Ymd(v))
  }

  /** The entity object the mapper hydrates from a row and writes back. */
  class Contract {
    var id: int
    var name: string
    var vendor: string
    var status: string
    var categoryId: Option<int>
    var startDate: Option<Date>
    var endDate: Option<Date>
    var cancellationPeriod: string
    var contractType: string
    var renewalPeriod: Option<string>
    var cost: Option<string>
    var currency: Option<string>
    var costInterval: Option<string>
    var contractFolder: Option<string>
    var mainDocument: Option<string>
    var reminderEnabled: int
    var reminderDays: Option<int>
    var notes: Option<string>
    var archived: int
    var isPrivate: int
    var deletedAt: Option<Instant>
    var createdBy: string
    var createdAt: Option<Instant>
    var updatedAt: Option<Instant>

    /** The row this entity would be stored as. */
    function Record(): ContractRecord
      reads this
    {
      ContractRecord(id, name, vendor, status, categoryId, startDate, endDate,
        cancellationPeriod, contractType, renewalPeriod, cost, currency, costInterval,
        contractFolder, mainDocument, reminderEnabled, reminderDays, notes, archived,
        isPrivate, deletedAt, createdBy, createdAt, updatedAt)
    }

    ghost predicate Valid()
      reads this
    {
      ValidRecord(Record())
    }

    /** new Contract(): the property defaults of the entity. */
    constructor ()
      ensures Valid() && Record() == DefaultRecord()
      ensures name == "" && vendor == "" && cancellationPeriod == "" && createdBy == ""
      ensures status == StatusActive && contractType == TypeFixed && currency == Some("EUR")
      ensures reminderEnabled == 1 && archived == 0 && isPrivate == 0
      ensures deletedAt == None && reminderDays == None && categoryId == None
      ensures startDate == None && endDate == None && createdAt == None && updatedAt == None
      ensures renewalPeriod == None && cost == None && costInterval == None
      ensures contractFolder == None && mainDocument == None && notes == None
    {
      id := 0;
      name := "";
      vendor := "";
      status := StatusActive;
      categoryId := None;
      startDate := None;
      endDate := None;
      cancellationPeriod := "";
      contractType := TypeFixed;
      renewalPeriod := None;
      cost := None;
      currency := Some("EUR");
      costInterval := None;
      contractFolder := None;
      mainDocument := None;
      reminderEnabled := 1;
      reminderDays := None;
      notes := None;
      archived := 0;
      isPrivate := 0;
      deletedAt := None;
      createdBy := "";
      createdAt := None;
      updatedAt := None;
    }

    /** The mapper's hydration of a row into an entity. */
    constructor FromRecord(r: ContractRecord)
      ensures Record() == r
    {
      id, name, vendor, status := r.id, r.name, r.vendor, r.status;
      categoryId, startDate, endDate := r.categoryId, r.startDate, r.endDate;
      cancellationPeriod, contractType, renewalPeriod := r.cancellationPeriod, r.contractType, r.renewalPeriod;
      cost, currency, costInterval := r.cost, r.currency, r.costInterval;
      contractFolder, mainDocument := r.contractFolder, r.mainDocument;
      reminderEnabled, reminderDays, notes := r.reminderEnabled, r.reminderDays, r.notes;
      archived, isPrivate, deletedAt := r.archived, r.isPrivate, r.deletedAt;
      createdBy, createdAt, updatedAt := r.createdBy, r.createdAt, r.updatedAt;
    }

    method SetArchived(v: BoolOrInt)
      modifies this`archived
      ensures Record() == old(Record()).(archived := ToFlag(v))
      ensures v.Bool? ==> (archived != 0 <==> v.b)
    {
      archived := ToFlag(v);
    }

    method SetIsPrivate(v: BoolOrInt)
      modifies this`isPrivate
      ensures Record() == old(Record()).(isPrivate := ToFlag(v))
      ensures v.Bool? ==> (isPrivate != 0 <==> v.b)
    {
      isPrivate := ToFlag(v);
    }

    method SetDeletedAt(t: Option<Instant>)
      modifies this`deletedAt
      ensures Record() == old(Record()).(deletedAt := t)
      ensures IsDeleted() <==> t.Some?
    {
      deletedAt := t;
    }

    /** The contract is in the trash. */
    function IsDeleted(): (r: bool)
      reads this
      ensures r <==> deletedAt.Some?
    {
      deletedAt != None
    }

    /** jsonSerialize(): the row as the front end receives it. */
    function JsonSerialize(): (j: ContractJson)
      reads this
      requires Valid()
      ensures j == RecordJson(Record())
    {
      RecordJson(Record())
    }
  }

  /** The row of a freshly constructed entity, before any setter runs. */
  function DefaultRecord(): ContractRecord
  {
    ContractRecord(0, "", "", StatusActive, None, None, None, "", TypeFixed, None, None,
      Some("EUR"), None, None, None, 1, None, None, 0, 0, None, "", None, None)
  }

  /** The JSON view of a stored row, as the entity loaded from it serialises. */
  function RecordJson(r: ContractRecord): (j: ContractJson)
    requires ValidRecord(r)
    ensures j.id == r.id && j.name == r.name && j.status == r.status && j.createdBy == r.createdBy
    ensures j.reminderEnabled <==> r.reminderEnabled != 0
    ensures j.archived <==> r.archived != 0
    ensures j.isPrivate <==> r.isPrivate != 0
    ensures j.startDate == FormatDate(r.startDate) && j.endDate == FormatDate(r.endDate)
    ensures j.deletedAt == r.deletedAt
  {
    ContractJson(r.id, r.name, r.vendor, r.status, r.categoryId, FormatDate(r.startDate),
      FormatDate(r.endDate), r.cancellationPeriod, r.contractType, r.renewalPeriod, r.cost,
      r.currency, r.costInterval, r.contractFolder, r.mainDocument, r.reminderEnabled != 0,
      r.reminderDays, r.notes, r.archived != 0, r.isPrivate != 0, r.deletedAt, r.createdBy,
      r.createdAt, r.updatedAt)
  }
}
