/**
 * The current application form component (`ApplicationForm`): the draft of
 * one job application held in reactive-form controls, the four contact chip
 * lists, the follow-up dates, the error flags of rejected chips, and the
 * submit step that checks the form, back-fills domains from emails and
 * builds the request sent to the back end.
 */
module ApplicationFormModel {
  import opened Wrappers
  import opened JsText
  import opened JsDates
  import opened ChipPatterns
  import opened FormRules
  import opened CountrySearch

  /** `ApplicationRequest`, the body of `POST /api/applications`. */
  datatype ApplicationRequest = ApplicationRequest(
    country: string,
    companyName: string,
    jobTitle: string,
    jobLink: string,
    publicationDate: Option<string>,
    applicationDate: string,
    status: string,
    contacts: ChipLists,
    followUpDates: seq<string>,
    sentFiles: seq<string>)

  /** `followUpDates.value.map((d) => toYMD(d)!)` */
  function FollowUpYmds(dates: seq<JsDate>): (r: seq<string>)
    ensures |r| == |dates|
    ensures forall i | 0 <= i < |dates| :: IsYmdOf(r[i], dates[i])
  {
    seq(|dates|, i requires 0 <= i < |dates| => Ymd(dates[i]))
  }

  predicate SameDay(a: JsDate, b: JsDate) {
    a.year == b.year && a.month == b.month && a.day == b.day
  }

  /**
   * The follow-up dates are kept apart by instant, but sent by day: the
   * request lists no day twice exactly when no two follow-up dates fall on
   * the same calendar day.
   */
  lemma FollowUpYmdsNoDupIffDistinctDays(dates: seq<JsDate>)
    ensures NoDup(FollowUpYmds(dates)) <==>
      forall i, j | 0 <= i < j < |dates| :: !SameDay(dates[i], dates[j])
  {
    var r := FollowUpYmds(dates);
    forall i, j | 0 <= i < j < |dates|
      ensures r[i] == r[j] <==> SameDay(dates[i], dates[j])
    {
      YmdSameDay(dates[i], dates[j]);
    }
  }

  /** Two follow-up dates on one day, an hour apart, are both kept but serialise alike. */
  lemma SameDayFollowUpsRepeatInRequest()
    ensures var dates := [JsDate(2025, 0, 6, 0), JsDate(2025, 0, 6, 3_600_000)];
      NoDup(dates) && !NoDup(FollowUpYmds(dates))
  {
    var dates := [JsDate(2025, 0, 6, 0), JsDate(2025, 0, 6, 3_600_000)];
    FollowUpYmdsNoDupIffDistinctDays(dates);
    assert SameDay(dates[0], dates[1]);
  }

  /**
   * The request `onSubmit` builds from the raw form value, the chip lists
   * (after the back-fill) and the follow-up dates; every date goes out as
   * `Y-MM-DD`.
   */
  function BuildRequest(country: string, companyName: string, jobTitle: string, jobLink: string,
                        publicationDate: Option<JsDate>, applicationDate: JsDate, status: string,
                        contacts: ChipLists, followUpDates: seq<JsDate>, sentFiles: seq<string>): (r: ApplicationRequest)
    ensures r.country == country && r.companyName == companyName && r.jobTitle == jobTitle
    ensures r.jobLink == jobLink && r.status == status
    ensures r.publicationDate.None? <==> publicationDate.None?
    ensures publicationDate.Some? ==> IsYmdOf(r.publicationDate.value, publicationDate.value)
    ensures IsYmdOf(r.applicationDate, applicationDate)
    ensures r.contacts == contacts && r.sentFiles == sentFiles
    ensures |r.followUpDates| == |followUpDates|
    ensures forall i | 0 <= i < |followUpDates| :: IsYmdOf(r.followUpDates[i], followUpDates[i])
  {
    ApplicationRequest(country, companyName, jobTitle, jobLink, ToYMD(publicationDate),
      Ymd(applicationDate), status, contacts, FollowUpYmds(followUpDates), sentFiles)
  }

  /** The choice the success dialog closes with. */
  datatype DialogAction = AddAnother | BackToList | Dismissed

  class ApplicationForm {
    /** `readonly today = new Date()`, read once when the component is created. */
    const today: JsDate

    var country: string
    var companyName: string
    var jobTitle: string
    var jobLink: string
    var publicationDate: Option<JsDate>
    var applicationDate: Option<JsDate>
    var status: string

    var names: seq<string>
    var emails: seq<string>
    var domains: seq<string>
    var phones: seq<string>

    var followUpDates: seq<JsDate>
    var sentFiles: seq<string>

    var invalidEmail: Option<string>
    var invalidDomain: Option<string>
    var invalidPhone: Option<string>

    /** Whether `markAllAsTouched` has run since the last reset. */
    var touched: bool

    var countries: seq<CountryOption>
    var filteredCountries: seq<CountryOption>

    /** The four chip lists of the `contacts` group. */
    function Lists(): ChipLists
      reads this`names, this`emails, this`domains, this`phones
    {
      ChipLists(names, emails, domains, phones)
    }

    /**
     * What every method keeps: no chip list and no follow-up list holds a
     * value twice, and `domains` holds no empty entry.
     */
    predicate Valid()
      reads this`names, this`emails, this`domains, this`phones, this`followUpDates
    {
      Lists().AllNoDup() && NoDup(followUpDates) && "" !in domains
    }

    /** `!form.invalid` */
    predicate Submittable()
      reads this`companyName, this`jobTitle, this`status, this`publicationDate, this`applicationDate
    {
      FormValid(Some(companyName), Some(jobTitle), Some(status), publicationDate, applicationDate)
    }

    /** The initial form, with `today` as publication, application and sole follow-up date. */
    constructor(today: JsDate, countries: seq<CountryOption>)
      ensures Valid()
      ensures this.today == today
      ensures country == "FR" && companyName == "" && jobTitle == "" && jobLink == "" && status == ""
      ensures publicationDate == Some(today) && applicationDate == Some(today)
      ensures Lists() == ChipLists([], [], [], []) && followUpDates == [today] && sentFiles == []
      ensures invalidEmail.None? && invalidDomain.None? && invalidPhone.None? && !touched
      ensures this.countries == countries && filteredCountries == countries
    {
      this.today := today;
      country := "FR";
      companyName := "";
      jobTitle := "";
      jobLink := "";
      publicationDate := Some(today);
      applicationDate := Some(today);
      status := "";
      names := [];
      emails := [];
      domains := [];
      phones := [];
      followUpDates := [today];
      sentFiles := [];
      invalidEmail := None;
      invalidDomain := None;
      invalidPhone := None;
      touched := false;
      this.countries := countries;
      filteredCountries := countries;
    }

    /**
     * `addItem(array, raw)` on the chip list `kind`: the lists become what
     * `AddChip` computes, and a rejected email, domain or phone number is
     * flagged with its trimmed text.
     */
    method AddItem(kind: ChipKind, raw: string, formatPhone: PhoneFormatter)
      requires Valid()
      modifies this`names, this`emails, this`domains, this`phones
      modifies this`invalidEmail, this`invalidDomain, this`invalidPhone
      ensures Valid()
      ensures var out := AddChip(old(Lists()), kind, raw, Region(Some(old(country))), formatPhone);
        && (if out.Accepted? then Lists() == out.lists else Lists() == old(Lists()))
        && invalidEmail == (if kind == Emails && out.Rejected? then Some(out.value) else old(invalidEmail))
        && invalidDomain == (if kind == Domains && out.Rejected? then Some(out.value) else old(invalidDomain))
        && invalidPhone == (if kind == Phones && out.Rejected? then Some(out.value) else old(invalidPhone))
    {
      var out := AddChip(Lists(), kind, raw, Region(Some(country)), formatPhone);
      AddChipKeepsNoDup(Lists(), kind, raw, Region(Some(country)), formatPhone);
      AddChipKeepsDomainsNonEmpty(Lists(), kind, raw, Region(Some(country)), formatPhone);
      ApplyOutcome(kind, out);
    }

    /** Stores what one `addItem` call decided: the new lists, or the flag of a rejected value. */
    method ApplyOutcome(kind: ChipKind, out: AddOutcome)
      requires Valid()
      requires out.Accepted? ==> out.lists.AllNoDup() && "" !in out.lists.domains
      requires out.Rejected? ==> kind != Names
      modifies this`names, this`emails, this`domains, this`phones
      modifies this`invalidEmail, this`invalidDomain, this`invalidPhone
      ensures Valid()
      ensures if out.Accepted? then Lists() == out.lists else Lists() == old(Lists())
      ensures invalidEmail == (if kind == Emails && out.Rejected? then Some(out.value) else old(invalidEmail))
      ensures invalidDomain == (if kind == Domains && out.Rejected? then Some(out.value) else old(invalidDomain))
      ensures invalidPhone == (if kind == Phones && out.Rejected? then Some(out.value) else old(invalidPhone))
    {
      match out {
        case Ignored =>
        case Rejected(value) =>
          FlagRejected(kind, value);
        case Accepted(lists) =>
          names, emails, domains, phones := lists.names, lists.emails, lists.domains, lists.phones;
      }
    }

    /** `this.invalidEmail = value` (or `invalidDomain`, `invalidPhone`, after the list `kind`). */
    method FlagRejected(kind: ChipKind, value: string)
      requires kind != Names
      modifies this`invalidEmail, this`invalidDomain, this`invalidPhone
      ensures invalidEmail == if kind == Emails then Some(value) else old(invalidEmail)
      ensures invalidDomain == if kind == Domains then Some(value) else old(invalidDomain)
      ensures invalidPhone == if kind == Phones then Some(value) else old(invalidPhone)
    {
      match kind {
        case Emails => invalidEmail := Some(value);
        case Domains => invalidDomain := Some(value);
        case Phones => invalidPhone := Some(value);
      }
    }

    /** `removeItem(array, index)`: `FormArray.removeAt` on the chip list `kind`. */
    method RemoveItem(kind: ChipKind, index: int)
      requires Valid()
      modifies this`names, this`emails, this`domains, this`phones
      ensures Valid()
      ensures Lists() == old(Lists()).With(kind, RemoveAt(old(Lists().Get(kind)), index))
    {
      match kind {
        case Names => names := RemoveAt(names, index);
        case Emails => emails := RemoveAt(emails, index);
        case Domains => domains := RemoveAt(domains, index);
        case Phones => phones := RemoveAt(phones, index);
      }
    }

    /**
     * `addFollowUpDate(date = this.today)`: `None` stands for the omitted
     * argument. The date is appended unless one with the same instant is
     * already listed.
     */
    method AddFollowUpDate(date: Option<JsDate>)
      requires Valid()
      modifies this`followUpDates
      ensures Valid()
      ensures followUpDates == AppendIfAbsent(old(followUpDates), date.GetOr(today))
    {
      var d := date.GetOr(today);
      var alreadyListed := d in followUpDates;
      if !alreadyListed {
        followUpDates := followUpDates + [d];
      }
    }

    /** `removeFollowUpDate(index)` */
    method RemoveFollowUpDate(index: int)
      requires Valid()
      modifies this`followUpDates
      ensures Valid()
      ensures followUpDates == RemoveAt(old(followUpDates), index)
    {
      followUpDates := RemoveAt(followUpDates, index);
    }

    /** `onDateSelected`: a picked date is added; a cleared picker adds nothing. */
    method OnDateSelected(picked: Option<JsDate>)
      requires Valid()
      modifies this`followUpDates
      ensures Valid()
      ensures followUpDates == if picked.Some? then AppendIfAbsent(old(followUpDates), picked.value) else old(followUpDates)
    {
      if picked.Some? {
        AddFollowUpDate(picked);
      }
    }

    /** `onCountrySearch(term)` */
    method OnCountrySearch(term: string)
      modifies this`filteredCountries
      ensures filteredCountries == SearchCountries(countries, term)
    {
      var value := Trim(ToLower(term));
      if value == "" {
        filteredCountries := countries;
        return;
      }
      filteredCountries := FilterCountries(countries, value);
    }

    /** `onCountryOpened(opened)`: closing the picker shows every country again. */
    method OnCountryOpened(isOpen: bool)
      modifies this`filteredCountries
      ensures filteredCountries == if isOpen then old(filteredCountries) else countries
    {
      if !isOpen {
        filteredCountries := countries;
      }
    }

    /**
     * `resetFormAfterSuccess`: every control back to an empty draft dated
     * today, with no publication date and every list (follow-up dates
     * included) cleared, so the draft cannot be submitted until it is
     * filled in again. The chip error flags and the country filter stay.
     */
    method ResetFormAfterSuccess()
      modifies this`country, this`companyName, this`jobTitle, this`jobLink, this`status
      modifies this`publicationDate, this`applicationDate
      modifies this`names, this`emails, this`domains, this`phones, this`followUpDates, this`sentFiles
      modifies this`touched
      ensures Valid() && !Submittable()
      ensures country == "FR" && companyName == "" && jobTitle == "" && jobLink == "" && status == ""
      ensures publicationDate.None? && applicationDate == Some(today)
      ensures Lists() == ChipLists([], [], [], []) && followUpDates == [] && sentFiles == []
      ensures !touched
    {
      ResetControls();
      ClearLists();
    }

    /** The controls part of the reset: an empty draft dated today, untouched. */
    method ResetControls()
      modifies this`country, this`companyName, this`jobTitle, this`jobLink, this`status
      modifies this`publicationDate, this`applicationDate, this`touched
      ensures country == "FR" && companyName == "" && jobTitle == "" && jobLink == "" && status == ""
      ensures publicationDate.None? && applicationDate == Some(today) && !touched
    {
      country := "FR";
      companyName := "";
      jobTitle := "";
      jobLink := "";
      publicationDate := None;
      applicationDate := Some(today);
      status := "";
      touched := false;
    }

    /** The list part of the reset: every chip list, the follow-up dates and the sent files emptied. */
    method ClearLists()
      modifies this`names, this`emails, this`domains, this`phones, this`followUpDates, this`sentFiles
      ensures Lists() == ChipLists([], [], [], []) && followUpDates == [] && sentFiles == []
    {
      names := [];
      emails := [];
      domains := [];
      phones := [];
      followUpDates := [];
      sentFiles := [];
    }

    /**
     * `onSubmit`: an invalid form is marked as touched and nothing is sent;
     * a valid one has its domains back-filled from the emails and yields
     * the request handed to `createApplication`.
     */
    method OnSubmit() returns (request: Option<ApplicationRequest>)
      requires Valid()
      modifies this`domains, this`touched
      ensures Valid()
      ensures !old(Submittable()) ==> request.None? && touched && domains == old(domains)
      ensures old(Submittable()) ==>
        && touched == old(touched)
        && domains == Backfill(emails, old(domains))
        && request == Some(BuildRequest(country, companyName, jobTitle, jobLink, publicationDate,
             applicationDate.value, status, Lists(), followUpDates, sentFiles))
    {
      if !Submittable() {
        touched := true;
        return None;
      }
      BackfillDomains();
      request := Some(BuildRequest(country, companyName, jobTitle, jobLink, publicationDate,
        applicationDate.value, status, Lists(), followUpDates, sentFiles));
    }

    /**
     * The back-fill of `onSubmit`: when no domain was entered but emails
     * were, `domains` is cleared and the emails' domains are pushed one by
     * one.
     */
    method BackfillDomains()
      requires Valid()
      modifies this`domains
      ensures Valid()
      ensures domains == Backfill(emails, old(domains))
    {
      if |domains| == 0 && |emails| > 0 {
        var emailDomains := EmailDomains(emails);
        domains := [];
        PushDomains(emailDomains);
      }
    }

    /** `values.forEach((d) => this.domains.push(control(d)))` */
    method PushDomains(values: seq<string>)
      modifies this`domains
      ensures domains == old(domains) + values
    {
      var i := 0;
      while i < |values|
        invariant 0 <= i <= |values|
        invariant domains == old(domains) + values[..i]
      {
        domains := domains + [values[i]];
        i := i + 1;
      }
      assert values[..i] == values;
    }

    /**
     * The success dialog's choice: "add another" resets the form, "back to
     * the list" navigates away (the result says so), and dismissing it does
     * nothing.
     */
    method OnCreateSucceeded(action: DialogAction) returns (navigateToList: bool)
      requires Valid()
      modifies this`country, this`companyName, this`jobTitle, this`jobLink, this`status
      modifies this`publicationDate, this`applicationDate
      modifies this`names, this`emails, this`domains, this`phones, this`followUpDates, this`sentFiles
      modifies this`touched
      ensures Valid()
      ensures navigateToList <==> action == BackToList
      ensures action == AddAnother ==>
        && !Submittable()
        && country == "FR" && companyName == "" && jobTitle == "" && jobLink == "" && status == ""
        && publicationDate.None? && applicationDate == Some(today)
        && Lists() == ChipLists([], [], [], []) && followUpDates == [] && sentFiles == []
        && !touched
      ensures action != AddAnother ==>
        && Lists() == old(Lists()) && followUpDates == old(followUpDates) && sentFiles == old(sentFiles)
        && companyName == old(companyName) && jobTitle == old(jobTitle) && status == old(status)
        && country == old(country) && jobLink == old(jobLink) && touched == old(touched)
        && publicationDate == old(publicationDate) && applicationDate == old(applicationDate)
    {
      navigateToList := false;
      if action == AddAnother {
        ResetFormAfterSuccess();
      } else if action == BackToList {
        navigateToList := true;
      }
    }
  }
}
