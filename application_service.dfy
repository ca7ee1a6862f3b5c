/**
 * `ApplicationService`: create, read, partial update and delete of
 * application records over the repository, kept here as a map from id to
 * record with a counter handing out fresh ids on save.
 */
module ServiceModel {
  import opened Wrappers
  import opened BackendModel
  import opened ApplicationMapper

  const CompanyNameRequired := "Company name is required"
  const JobTitleRequired := "Job title is required"
  const StatusRequired := "Status is required"
  const ApplicationDateRequired := "Application date is required"
  const PublicationAfterApplication := "Publication date cannot be after application date"
  const NullUpdateRequest := "Update request cannot be null"

  /** The position of a required-field message among the checks, which run in this order. */
  function CheckRank(message: string): nat {
    if message == CompanyNameRequired then 0
    else if message == JobTitleRequired then 1
    else if message == StatusRequired then 2
    else 3
  }

  predicate IsRequiredMessage(message: string) {
    message == CompanyNameRequired || message == JobTitleRequired
    || message == StatusRequired || message == ApplicationDateRequired
  }

  /** `if (failed) errors.add(message)` */
  function AddIf(errors: seq<string>, failed: bool, message: string): (r: seq<string>)
    ensures failed ==> r == errors + [message]
    ensures !failed ==> r == errors
  {
    if failed then errors + [message] else errors
  }

  /**
   * The `errors` list `createApplication` collects: one message per
   * missing required field, and none exactly when all four are present.
   */
  function RequiredFieldErrors(req: CreateRequest): (errors: seq<string>)
    ensures CompanyNameRequired in errors <==> Missing(req.companyName)
    ensures JobTitleRequired in errors <==> Missing(req.jobTitle)
    ensures StatusRequired in errors <==> Missing(req.status)
    ensures ApplicationDateRequired in errors <==> req.applicationDate.None?
    ensures forall m | m in errors :: IsRequiredMessage(m)
    ensures errors == [] <==>
      !Missing(req.companyName) && !Missing(req.jobTitle) && !Missing(req.status) && req.applicationDate.Some?
  {
    var afterCompany := AddIf([], Missing(req.companyName), CompanyNameRequired);
    var afterTitle := AddIf(afterCompany, Missing(req.jobTitle), JobTitleRequired);
    var afterStatus := AddIf(afterTitle, Missing(req.status), StatusRequired);
    AddIf(afterStatus, req.applicationDate.None?, ApplicationDateRequired)
  }

  /** The messages come in the order the fields are checked, so none is repeated. */
  lemma RequiredFieldErrorsInCheckOrder(req: CreateRequest)
    ensures var errors := RequiredFieldErrors(req);
      forall i, j | 0 <= i < j < |errors| :: CheckRank(errors[i]) < CheckRank(errors[j])
  {
    var errors := RequiredFieldErrors(req);
    assert CheckRank(JobTitleRequired) == 1 && CheckRank(StatusRequired) == 2 && CheckRank(ApplicationDateRequired) == 3;
    forall i, j | 0 <= i < j < |errors|
      ensures CheckRank(errors[i]) < CheckRank(errors[j])
    {
    }
  }

  /** Both dates are given and the publication is strictly after the application; equal days pass. */
  predicate DatesOutOfOrder(publication: Option<LocalDate>, application: Option<LocalDate>) {
    publication.Some? && application.Some? && IsAfter(publication.value, application.value)
  }

  /** Why `createApplication` refuses a request, if it does: missing fields first, then the date order. */
  function CreateError(req: CreateRequest): (r: Option<ServiceError>)
    ensures r.None? <==> RequiredFieldErrors(req) == [] && !DatesOutOfOrder(req.publicationDate, req.applicationDate)
    ensures r.Some? ==> r.value.BadRequest? && r.value.messages != []
    ensures RequiredFieldErrors(req) != [] ==> r == Some(BadRequest(RequiredFieldErrors(req)))
    ensures RequiredFieldErrors(req) == [] && DatesOutOfOrder(req.publicationDate, req.applicationDate) ==>
      r == Some(BadRequest([PublicationAfterApplication]))
  {
    var errors := RequiredFieldErrors(req);
    if errors != [] then Some(BadRequest(errors))
    else if DatesOutOfOrder(req.publicationDate, req.applicationDate) then Some(BadRequest([PublicationAfterApplication]))
    else None
  }

  /** The required fields of a stored record hold text that is not blank. */
  predicate RecordFilled(e: Application) {
    !IsBlank(e.companyName) && !IsBlank(e.jobTitle) && !IsBlank(e.status)
  }

  /** The entity `createApplication` builds from an accepted request, under the id `save` gives it. */
  function NewEntity(id: Uuid, req: CreateRequest): (e: Application)
    requires CreateError(req).None?
    ensures e.id == id && RecordFilled(e)
    ensures e.publicationDate.None? || !IsAfter(e.publicationDate.value, e.applicationDate)
  {
    Application(id, req.companyName.value, req.jobTitle.value, req.jobLink, req.country,
      req.publicationDate, req.applicationDate.value, req.status.value,
      if req.contacts.Some? then Some(ContactsFromDto(req.contacts.value)) else None,
      req.followUpDates, req.sentFiles)
  }

  /** The request that describes a record: every field as stored, the contacts as a DTO. */
  function AsRequest(e: Application): (req: CreateRequest)
  {
    CreateRequest(Some(e.companyName), Some(e.jobTitle), e.jobLink, e.country, e.publicationDate,
      Some(e.applicationDate), Some(e.status),
      if e.contacts.Some? then Some(ContactsToDto(e.contacts.value)) else None,
      e.followUpDates, e.sentFiles)
  }

  /** A created record holds exactly what the request said: nothing is dropped or invented. */
  lemma NewEntityKeepsRequest(id: Uuid, req: CreateRequest)
    requires CreateError(req).None?
    ensures AsRequest(NewEntity(id, req)) == req
  {
    if req.contacts.Some? {
      ContactsDtoRoundTrip(req.contacts.value);
    }
  }

  /** A required text field after its setter: replaced only by a value that is not blank. */
  function PatchText(stored: string, given: Option<string>): (r: string)
    ensures Missing(given) ==> r == stored
    ensures !Missing(given) ==> r == given.value
    ensures !IsBlank(stored) ==> !IsBlank(r)
  {
    if !Missing(given) then given.value else stored
  }

  /** Any other field after its setter: replaced only by a non-null value. */
  function PatchValue<T>(stored: Option<T>, given: Option<T>): (r: Option<T>)
    ensures given.None? ==> r == stored
    ensures given.Some? ==> r == given
    ensures r.Some? <==> stored.Some? || given.Some?
  {
    if given.Some? then given else stored
  }

  /** The first five setters of `updateApplication`: company name, job title, job link, country, publication date. */
  function PatchedHead(e: Application, req: CreateRequest): (r: Application)
  {
    e.(companyName := PatchText(e.companyName, req.companyName),
       jobTitle := PatchText(e.jobTitle, req.jobTitle),
       jobLink := PatchValue(e.jobLink, req.jobLink),
       country := PatchValue(e.country, req.country),
       publicationDate := PatchValue(e.publicationDate, req.publicationDate))
  }

  /** The remaining setters: application date, status, contacts, follow-up dates, sent files. */
  function PatchedTail(e: Application, req: CreateRequest): (r: Application)
  {
    e.(applicationDate := req.applicationDate.GetOr(e.applicationDate),
       status := PatchText(e.status, req.status),
       contacts := PatchValue(e.contacts, if req.contacts.Some? then Some(ContactsFromDto(req.contacts.value)) else None),
       followUpDates := PatchValue(e.followUpDates, req.followUpDates),
       sentFiles := PatchValue(e.sentFiles, req.sentFiles))
  }

  /**
   * The record after `updateApplication`'s setters: the text fields
   * company name, job title and status change only to a non-blank value,
   * every other field only to a non-null one; the id never changes.
   */
  function Patched(e: Application, req: CreateRequest): (r: Application)
    ensures r.id == e.id
  {
    PatchedTail(PatchedHead(e, req), req)
  }

  /**
   * What a partial update does, field by field: a text field the request
   * leaves null or blank, or any other field it leaves null, keeps the stored
   * value; a supplied field takes the request's value.
   */
  lemma PatchedFieldByField(e: Application, req: CreateRequest)
    ensures var r := Patched(e, req);
      && r.id == e.id
      && r.companyName == (if Missing(req.companyName) then e.companyName else req.companyName.value)
      && r.jobTitle == (if Missing(req.jobTitle) then e.jobTitle else req.jobTitle.value)
      && r.status == (if Missing(req.status) then e.status else req.status.value)
      && r.jobLink == (if req.jobLink.None? then e.jobLink else req.jobLink)
      && r.country == (if req.country.None? then e.country else req.country)
      && r.publicationDate == (if req.publicationDate.None? then e.publicationDate else req.publicationDate)
      && r.applicationDate == (if req.applicationDate.None? then e.applicationDate else req.applicationDate.value)
      && r.contacts == (if req.contacts.None? then e.contacts else Some(ContactsFromDto(req.contacts.value)))
      && r.followUpDates == (if req.followUpDates.None? then e.followUpDates else req.followUpDates)
      && r.sentFiles == (if req.sentFiles.None? then e.sentFiles else req.sentFiles)
  {
    var h := PatchedHead(e, req);
    assert h.companyName == PatchText(e.companyName, req.companyName);
    assert h.jobTitle == PatchText(e.jobTitle, req.jobTitle);
    assert h.jobLink == PatchValue(e.jobLink, req.jobLink);
    assert h.country == PatchValue(e.country, req.country);
    assert h.publicationDate == PatchValue(e.publicationDate, req.publicationDate);
  }

  /** An update never blanks a required field, so a stored record stays filled. */
  lemma PatchedKeepsFilled(e: Application, req: CreateRequest)
    requires RecordFilled(e)
    ensures RecordFilled(Patched(e, req))
  {
    var h := PatchedHead(e, req);
    assert h.companyName == PatchText(e.companyName, req.companyName);
    assert h.jobTitle == PatchText(e.jobTitle, req.jobTitle);
    assert PatchedTail(h, req).status == PatchText(e.status, req.status);
  }

  /** The request whose every field is null. */
  const EmptyRequest := CreateRequest(None, None, None, None, None, None, None, None, None, None)

  /** An update that supplies nothing leaves the record as it was. */
  lemma EmptyUpdateKeepsRecord(e: Application)
    ensures Patched(e, EmptyRequest) == e
  {
  }

  /** Applying the same update twice is applying it once. */
  lemma PatchedIdempotent(e: Application, req: CreateRequest)
    ensures Patched(Patched(e, req), req) == Patched(e, req)
  {
  }

  /**
   * Sending a filled, fully populated record's own fields as the update
   * turns any record into that one, except for the id.
   */
  lemma PatchedWithRecordBecomesRecord(x: Application, e: Application)
    requires RecordFilled(e)
    requires e.jobLink.Some? && e.country.Some? && e.publicationDate.Some?
    requires e.contacts.Some? && e.followUpDates.Some? && e.sentFiles.Some?
    ensures Patched(x, AsRequest(e)) == e.(id := x.id)
  {
  }

  /**
   * The update checks the order of the dates in the request only: a
   * request giving just a publication date later than the stored
   * application date is accepted, and the stored record then has its
   * publication after its application.
   */
  lemma UpdateCanInvertStoredDates()
    ensures var stored := Application(0, "Acme", "Developer", None, None, Some(LocalDate(2025, 3, 1)),
                                      LocalDate(2025, 3, 10), "Sent", None, None, None);
      var req := EmptyRequest.(publicationDate := Some(LocalDate(2025, 4, 1)));
      && !IsAfter(stored.publicationDate.value, stored.applicationDate)
      && !DatesOutOfOrder(req.publicationDate, req.applicationDate)
      && IsAfter(Patched(stored, req).publicationDate.value, Patched(stored, req).applicationDate)
  {
  }

  class ApplicationService {
    /** The repository's records by id. */
    var store: map<Uuid, Application>
    /** The id the next `save` of a new entity hands out. */
    var nextId: Uuid

    /** Every record sits under its own id, below the next fresh id, with its required fields filled. */
    predicate Valid()
      reads this`store, this`nextId
    {
      forall id | id in store :: store[id].id == id && id < nextId && RecordFilled(store[id])
    }

    constructor()
      ensures Valid() && store == map[] && nextId == 0
    {
      store := map[];
      nextId := 0;
    }

    /**
     * `createApplication(req)`: a refused request throws and saves nothing;
     * an accepted one is saved as one new record under a fresh id, and its
     * response is returned.
     */
    method CreateApplication(req: CreateRequest) returns (result: Result<ApplicationResponse, ServiceError>)
      requires Valid()
      modifies this`store, this`nextId
      ensures Valid()
      ensures CreateError(req).Some? ==>
        result == Failure(CreateError(req).value) && store == old(store) && nextId == old(nextId)
      ensures CreateError(req).None? ==>
        && old(nextId) !in old(store)
        && store == old(store)[old(nextId) := NewEntity(old(nextId), req)]
        && result == Success(ToResponse(NewEntity(old(nextId), req)))
    {
      var errors := CollectRequiredFieldErrors(req);
      if errors != [] {
        return Failure(BadRequest(errors));
      }
      if req.publicationDate.Some? && req.applicationDate.Some?
         && IsAfter(req.publicationDate.value, req.applicationDate.value) {
        return Failure(BadRequest([PublicationAfterApplication]));
      }
      var contacts: Option<Contacts> := None;
      if req.contacts.Some? {
        contacts := Some(ContactsFromDto(req.contacts.value));
      }
      var entity := Application(0, req.companyName.value, req.jobTitle.value, req.jobLink, req.country,
        req.publicationDate, req.applicationDate.value, req.status.value, contacts,
        req.followUpDates, req.sentFiles);
      var saved := SaveNew(entity);
      return Success(ToResponse(saved));
    }

    /** The `errors.add` steps of `createApplication`. */
    method CollectRequiredFieldErrors(req: CreateRequest) returns (errors: seq<string>)
      ensures errors == RequiredFieldErrors(req)
    {
      errors := [];
      if Missing(req.companyName) {
        errors := errors + [CompanyNameRequired];
      }
      if Missing(req.jobTitle) {
        errors := errors + [JobTitleRequired];
      }
      if Missing(req.status) {
        errors := errors + [StatusRequired];
      }
      if req.applicationDate.None? {
        errors := errors + [ApplicationDateRequired];
      }
    }

    /** `repository.save` of a new entity: it gets a fresh id and is stored under it. */
    method SaveNew(e: Application) returns (saved: Application)
      requires Valid() && RecordFilled(e)
      modifies this`store, this`nextId
      ensures Valid()
      ensures saved == e.(id := old(nextId)) && old(nextId) !in old(store)
      ensures store == old(store)[old(nextId) := saved] && nextId == old(nextId) + 1
    {
      saved := e.(id := nextId);
      store := store[nextId := saved];
      nextId := nextId + 1;
    }

    /** `getApplication(id)`: the record's response, or not-found for an unknown id. */
    method GetApplication(id: Uuid) returns (result: Result<ApplicationResponse, ServiceError>)
      ensures id in store ==> result == Success(ToResponse(store[id]))
      ensures id !in store ==> result == Failure(NotFound(id))
    {
      if id !in store {
        return Failure(NotFound(id));
      }
      return Success(ToResponse(store[id]));
    }

    /** `getAllApplications()`: one response per stored record, in the order the keys are visited. */
    method GetAllApplications() returns (responses: seq<ApplicationResponse>)
      requires Valid()
      ensures |responses| == |store.Keys|
      ensures forall id | id in store :: ToResponse(store[id]) in responses
      ensures forall r | r in responses :: r.id in store && r == ToResponse(store[r.id])
    {
      responses := [];
      var remaining := store.Keys;
      while remaining != {}
        invariant remaining <= store.Keys
        invariant |responses| + |remaining| == |store.Keys|
        invariant forall id | id in store && id !in remaining :: ToResponse(store[id]) in responses
        invariant forall r | r in responses :: r.id in store && r.id !in remaining && r == ToResponse(store[r.id])
        decreases remaining
      {
        var id :| id in remaining;
        responses := responses + [ToResponse(store[id])];
        remaining := remaining - {id};
      }
    }

    /**
     * `updateApplication(id, req)`, `None` standing for a null request: an
     * unknown id is reported before a null request, then the dates given in
     * the request are checked; any error leaves the store as it was.
     * Otherwise the record is patched and saved, and no other record changes.
     */
    method UpdateApplication(id: Uuid, req: Option<CreateRequest>) returns (result: Result<ApplicationResponse, ServiceError>)
      requires Valid()
      modifies this`store
      ensures Valid()
      ensures id !in old(store) ==> result == Failure(NotFound(id)) && store == old(store)
      ensures id in old(store) && req.None? ==> result == Failure(BadRequest([NullUpdateRequest])) && store == old(store)
      ensures id in old(store) && req.Some? && DatesOutOfOrder(req.value.publicationDate, req.value.applicationDate) ==>
        result == Failure(BadRequest([PublicationAfterApplication])) && store == old(store)
      ensures id in old(store) && req.Some? && !DatesOutOfOrder(req.value.publicationDate, req.value.applicationDate) ==>
        && store == old(store)[id := Patched(old(store)[id], req.value)]
        && result == Success(ToResponse(Patched(old(store)[id], req.value)))
    {
      if id !in store {
        return Failure(NotFound(id));
      }
      var existing := store[id];
      if req.None? {
        return Failure(BadRequest([NullUpdateRequest]));
      }
      var r := req.value;
      if r.publicationDate.Some? && r.applicationDate.Some? && IsAfter(r.publicationDate.value, r.applicationDate.value) {
        return Failure(BadRequest([PublicationAfterApplication]));
      }
      var updated := ApplySetters(existing, r);
      PatchedKeepsFilled(existing, r);
      store := store[id := updated];
      return Success(ToResponse(updated));
    }

    /** The setter calls of `updateApplication`, in order, on a copy of the stored record. */
    method ApplySetters(existing: Application, req: CreateRequest) returns (updated: Application)
      ensures updated == Patched(existing, req)
    {
      updated := ApplyHeadSetters(existing, req);
      updated := ApplyTailSetters(updated, req);
    }

    method ApplyHeadSetters(existing: Application, req: CreateRequest) returns (updated: Application)
      ensures updated == PatchedHead(existing, req)
    {
      var companyName, jobTitle, jobLink := existing.companyName, existing.jobTitle, existing.jobLink;
      var country, publicationDate := existing.country, existing.publicationDate;
      if !Missing(req.companyName) {
        companyName := req.companyName.value;
      }
      if !Missing(req.jobTitle) {
        jobTitle := req.jobTitle.value;
      }
      if req.jobLink.Some? {
        jobLink := req.jobLink;
      }
      if req.country.Some? {
        country := req.country;
      }
      if req.publicationDate.Some? {
        publicationDate := req.publicationDate;
      }
      updated := existing.(companyName := companyName, jobTitle := jobTitle, jobLink := jobLink,
                           country := country, publicationDate := publicationDate);
    }

    method ApplyTailSetters(existing: Application, req: CreateRequest) returns (updated: Application)
      ensures updated == PatchedTail(existing, req)
    {
      var applicationDate, status := existing.applicationDate, existing.status;
      var contacts, followUpDates, sentFiles := existing.contacts, existing.followUpDates, existing.sentFiles;
      if req.applicationDate.Some? {
        applicationDate := req.applicationDate.value;
      }
      if !Missing(req.status) {
        status := req.status.value;
      }
      if req.contacts.Some? {
        contacts := Some(ContactsFromDto(req.contacts.value));
      }
      if req.followUpDates.Some? {
        followUpDates := req.followUpDates;
      }
      if req.sentFiles.Some? {
        sentFiles := req.sentFiles;
      }
      updated := existing.(applicationDate := applicationDate, status := status, contacts := contacts,
                           followUpDates := followUpDates, sentFiles := sentFiles);
    }

    /** `deleteApplication(id)`: not-found for an unknown id, otherwise that record alone is removed. */
    method DeleteApplication(id: Uuid) returns (error: Option<ServiceError>)
      requires Valid()
      modifies this`store
      ensures Valid()
      ensures id in old(store) ==> error.None? && store == old(store) - {id}
      ensures id !in old(store) ==> error == Some(NotFound(id)) && store == old(store)
    {
      if id !in store {
        return Some(NotFound(id));
      }
      store := store - {id};
      return None;
    }
  }
}
