/**
 * The older application form component, kept beside the current one: the
 * same chip lists and follow-up dates, but nullable controls, a back-fill
 * that also replaces a `domains` list starting with an empty entry, a
 * payload without contacts or follow-up dates, and a reset after a
 * successful create that keeps the chip lists.
 */
module LegacyFormModel {
  import opened Wrappers
  import opened JsDates
  import opened FormRules

  /** The object `onSubmit` hands to `createApplication`; the dates are still `Date` values. */
  datatype LegacyPayload = LegacyPayload(
    country: Option<string>,
    companyName: string,
    jobTitle: string,
    jobLink: string,
    publicationDate: Option<JsDate>,
    applicationDate: JsDate,
    status: string)

  /**
   * The payload built from a valid form value: the required fields are
   * present and non-empty, a missing job link becomes `''`, and the
   * publication date is never after the application date.
   */
  function BuildLegacyPayload(country: Option<string>, companyName: Option<string>, jobTitle: Option<string>,
                              jobLink: Option<string>, publicationDate: Option<JsDate>,
                              applicationDate: Option<JsDate>, status: Option<string>): (r: LegacyPayload)
    requires FormValid(companyName, jobTitle, status, publicationDate, applicationDate)
    ensures r.country == country && r.publicationDate == publicationDate
    ensures Some(r.companyName) == companyName && Some(r.jobTitle) == jobTitle && Some(r.status) == status
    ensures r.companyName != "" && r.jobTitle != "" && r.status != ""
    ensures Some(r.applicationDate) == applicationDate
    ensures jobLink.Some? ==> r.jobLink == jobLink.value
    ensures jobLink.None? ==> r.jobLink == ""
    ensures r.publicationDate.None? || !After(r.publicationDate.value, r.applicationDate)
  {
    var published := publicationDate.GetOr(applicationDate.value);
    AfterIsStrictTotalOrder(published, applicationDate.value, published);
    LegacyPayload(country, companyName.value, jobTitle.value, jobLink.GetOr(""), publicationDate,
      applicationDate.value, status.value)
  }

  class LegacyApplicationForm {
    /** `today = new Date()`, read once when the component is created. */
    const today: JsDate

    var country: Option<string>
    var companyName: Option<string>
    var jobTitle: Option<string>
    var jobLink: Option<string>
    var publicationDate: Option<JsDate>
    var applicationDate: Option<JsDate>
    var status: Option<string>

    var names: seq<string>
    var emails: seq<string>
    var domains: seq<string>
    var phones: seq<string>

    var followUpDates: seq<JsDate>
    var sentFiles: Option<seq<string>>

    var invalidEmail: Option<string>
    var invalidDomain: Option<string>
    var invalidPhone: Option<string>

    /** Whether `markAllAsTouched` has run since the last `markAsUntouched`. */
    var touched: bool

    function Lists(): ChipLists
      reads this`names, this`emails, this`domains, this`phones
    {
      ChipLists(names, emails, domains, phones)
    }

    /** No list holds a value twice, and `domains` holds no empty entry. */
    predicate Valid()
      reads this`names, this`emails, this`domains, this`phones, this`followUpDates
    {
      Lists().AllNoDup() && NoDup(followUpDates) && "" !in domains
    }

    /** `!form.invalid` */
    predicate Submittable()
      reads this`companyName, this`jobTitle, this`status, this`publicationDate, this`applicationDate
    {
      FormValid(companyName, jobTitle, status, publicationDate, applicationDate)
    }

    /** The initial form: country "FR", `today` as publication, application and sole follow-up date. */
    constructor(today: JsDate)
      ensures Valid() && !Submittable()
      ensures this.today == today
      ensures country == Some("FR") && companyName == Some("") && jobTitle == Some("")
      ensures jobLink == Some("") && status == Some("")
      ensures publicationDate == Some(today) && applicationDate == Some(today)
      ensures Lists() == ChipLists([], [], [], []) && followUpDates == [today] && sentFiles == Some([])
      ensures invalidEmail.None? && invalidDomain.None? && invalidPhone.None? && !touched
    {
      this.today := today;
      country := Some("FR");
      companyName := Some("");
      jobTitle := Some("");
      jobLink := Some("");
      publicationDate := Some(today);
      applicationDate := Some(today);
      status := Some("");
      names := [];
      emails := [];
      domains := [];
      phones := [];
      followUpDates := [today];
      sentFiles := Some([]);
      invalidEmail := None;
      invalidDomain := None;
      invalidPhone := None;
      touched := false;
    }

    /**
     * `addItem(array, value)` on the list `kind`; the default phone region is
     * the country control's value, or "FR" when it is null or empty.
     */
    method AddItem(kind: ChipKind, raw: string, formatPhone: PhoneFormatter)
      requires Valid()
      modifies this`names, this`emails, this`domains, this`phones
      modifies this`invalidEmail, this`invalidDomain, this`invalidPhone
      ensures Valid()
      ensures var out := AddChip(old(Lists()), kind, raw, Region(old(country)), formatPhone);
        && (if out.Accepted? then Lists() == out.lists else Lists() == old(Lists()))
        && invalidEmail == (if kind == Emails && out.Rejected? then Some(out.value) else old(invalidEmail))
        && invalidDomain == (if kind == Domains && out.Rejected? then Some(out.value) else old(invalidDomain))
        && invalidPhone == (if kind == Phones && out.Rejected? then Some(out.value) else old(invalidPhone))
    {
      var out := AddChip(Lists(), kind, raw, Region(country), formatPhone);
      AddChipKeepsNoDup(Lists(), kind, raw, Region(country), formatPhone);
      AddChipKeepsDomainsNonEmpty(Lists(), kind, raw, Region(country), formatPhone);
      ApplyOutcome(kind, out);
    }

    /** Stores what one `addItem` call decided: the new lists, or the flag of a rejected value. */
    method ApplyOutcome(kind: ChipKind, out: AddOutcome)
      requires Valid()
      requires out.Accepted? ==> out.lists.AllNoDup() && "" !in out.lists.domains
      requires out.Rejected? ==> kind != Names
      modifies this`names, this`emails, this`domains, this`phones
      modifies this`invalidEmail, this`invalidDomain, this`invalidPhone
      ensures Valid()
      ensures if out.Accepted? then Lists() == out.lists else Lists() == old(Lists())
      ensures invalidEmail == (if kind == Emails && out.Rejected? then Some(out.value) else old(invalidEmail))
      ensures invalidDomain == (if kind == Domains && out.Rejected? then Some(out.value) else old(invalidDomain))
      ensures invalidPhone == (if kind == Phones && out.Rejected? then Some(out.value) else old(invalidPhone))
    {
      match out {
        case Ignored =>
        case Rejected(value) =>
          match kind {
            case Emails => invalidEmail := Some(value);
            case Domains => invalidDomain := Some(value);
            case Phones => invalidPhone := Some(value);
          }
        case Accepted(lists) =>
          names, emails, domains, phones := lists.names, lists.emails, lists.domains, lists.phones;
      }
    }

    /** `removeItem(array, index)`: `FormArray.removeAt` on the list `kind`. */
    method RemoveItem(kind: ChipKind, index: int)
      requires Valid()
      modifies this`names, this`emails, this`domains, this`phones
      ensures Valid()
      ensures Lists() == old(Lists()).With(kind, RemoveAt(old(Lists().Get(kind)), index))
    {
      match kind {
        case Names => names := RemoveAt(names, index);
        case Emails => emails := RemoveAt(emails, index);
        case Domains => domains := RemoveAt(domains, index);
        case Phones => phones := RemoveAt(phones, index);
      }
    }

    /** `addFollowUpDate(date = this.today)`: appended unless the same instant is listed. */
    method AddFollowUpDate(date: Option<JsDate>)
      requires Valid()
      modifies this`followUpDates
      ensures Valid()
      ensures followUpDates == AppendIfAbsent(old(followUpDates), date.GetOr(today))
    {
      var d := date.GetOr(today);
      if d !in followUpDates {
        followUpDates := followUpDates + [d];
      }
    }

    /** `removeFollowUpDate(index)` */
    method RemoveFollowUpDate(index: int)
      requires Valid()
      modifies this`followUpDates
      ensures Valid()
      ensures followUpDates == RemoveAt(old(followUpDates), index)
    {
      followUpDates := RemoveAt(followUpDates, index);
    }

    /**
     * `onSubmit`: an invalid form is marked as touched and nothing is sent;
     * a valid one has its domains back-filled from the emails and yields
     * the payload handed to `createApplication`.
     */
    method OnSubmit() returns (payload: Option<LegacyPayload>)
      requires Valid()
      modifies this`domains, this`touched
      ensures Valid()
      ensures !old(Submittable()) ==> payload.None? && touched && domains == old(domains)
      ensures old(Submittable()) ==>
        && touched == old(touched)
        && domains == LegacyBackfill(emails, old(domains))
        && payload == Some(BuildLegacyPayload(country, companyName, jobTitle, jobLink,
             publicationDate, applicationDate, status))
    {
      if !Submittable() {
        touched := true;
        return None;
      }
      BackfillDomains();
      payload := Some(BuildLegacyPayload(country, companyName, jobTitle, jobLink,
        publicationDate, applicationDate, status));
    }

    /**
     * The back-fill of `onSubmit`: when the emails yield a domain and
     * `domains` is empty or starts with an empty entry, `domains` is cleared
     * and the emails' domains are pushed one by one.
     */
    method BackfillDomains()
      requires Valid()
      modifies this`domains
      ensures Valid()
      ensures domains == LegacyBackfill(emails, old(domains))
    {
      var emailDomains := EmailDomains(emails);
      if |emailDomains| > 0 && (|domains| == 0 || domains[0] == "") {
        ReplaceDomains(emailDomains);
      }
    }

    /** `domains.clear()` followed by one push per value. */
    method ReplaceDomains(values: seq<string>)
      requires Valid() && NoDup(values) && "" !in values
      modifies this`domains
      ensures Valid() && domains == values
    {
      domains := [];
      PushDomains(values);
    }

    /** `emailDomains.forEach((d) => this.domains.push(control(d)))` */
    method PushDomains(values: seq<string>)
      modifies this`domains
      ensures domains == old(domains) + values
    {
      var i := 0;
      while i < |values|
        invariant 0 <= i <= |values|
        invariant domains == old(domains) + values[..i]
      {
        domains := domains + [values[i]];
        i := i + 1;
      }
      assert values[..i] == values;
    }

    /**
     * The success callback: `form.reset({ country: 'FR', applicationDate: now })`
     * then `markAsUntouched`. The nullable controls become null, except the
     * two given values; the chip and follow-up controls are non-nullable,
     * so they reset to the value they were created with and every list is
     * kept as it is. The reset form cannot be submitted again as it stands.
     */
    method OnCreateSucceeded(now: JsDate)
      requires Valid()
      modifies this`country, this`companyName, this`jobTitle, this`jobLink, this`status
      modifies this`publicationDate, this`applicationDate, this`sentFiles, this`touched
      ensures Valid() && !Submittable()
      ensures country == Some("FR") && applicationDate == Some(now)
      ensures companyName.None? && jobTitle.None? && jobLink.None? && status.None?
      ensures publicationDate.None? && sentFiles.None? && !touched
    {
      ClearNullableControls();
      country := Some("FR");
      applicationDate := Some(now);
      touched := false;
    }

    /** The controls `form.reset` is given no value for, and which fall back to null. */
    method ClearNullableControls()
      modifies this`companyName, this`jobTitle, this`jobLink, this`status, this`publicationDate, this`sentFiles
      ensures companyName.None? && jobTitle.None? && jobLink.None? && status.None?
      ensures publicationDate.None? && sentFiles.None?
    {
      companyName := None;
      jobTitle := None;
      jobLink := None;
      status := None;
      publicationDate := None;
      sentFiles := None;
    }
  }
}
