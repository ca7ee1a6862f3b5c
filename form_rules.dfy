/**
 * The rules both revisions of the application form share, as pure
 * functions over the values of its lists: the chip normaliser behind
 * `addItem`, `FormArray.removeAt`, the `emailDomains` filter/map chain of
 * `onSubmit` and the `validateDateOrder` form validator. The two form
 * classes call these from their imperative methods.
 */
module FormRules {
  import opened Wrappers
  import opened JsText
  import opened JsDates
  import opened ChipPatterns

  predicate NoDup<T(==)>(s: seq<T>) {
    forall i, j | 0 <= i < j < |s| :: s[i] != s[j]
  }

  /** How many times `x` occurs in `s`. */
  function Count<T(==)>(s: seq<T>, x: T): nat {
    if s == [] then 0 else Count(s[..|s| - 1], x) + (if s[|s| - 1] == x then 1 else 0)
  }

  /** In a list without repeats, a present value occurs exactly once. */
  lemma {:induction false} CountInNoDup<T>(s: seq<T>, x: T)
    requires NoDup(s)
    ensures Count(s, x) == if x in s then 1 else 0
  {
    if s != [] {
      var init := s[..|s| - 1];
      CountInNoDup(init, x);
      assert x in s <==> x in init || s[|s| - 1] == x;
      assert s[|s| - 1] !in init;
    }
  }

  /** `if (!list.value.includes(x)) list.push(x)`: the value is appended at the end only when absent. */
  function AppendIfAbsent<T(==)>(s: seq<T>, x: T): (r: seq<T>)
    ensures x in r
    ensures |s| <= |r| <= |s| + 1 && r[..|s|] == s
    ensures |r| == |s| + 1 ==> x !in s && r[|s|] == x
    ensures forall y | y in r :: y in s || y == x
    ensures forall y | y in s :: y in r
    ensures NoDup(s) ==> NoDup(r)
  {
    if x in s then s else s + [x]
  }

  /** `s` with the element at position `k` taken out; the others keep their order. */
  function Without<T(==)>(s: seq<T>, k: nat): (r: seq<T>)
    requires k < |s|
    ensures |r| == |s| - 1
    ensures forall i | 0 <= i < k :: r[i] == s[i]
    ensures forall i | k <= i < |r| :: r[i] == s[i + 1]
    ensures multiset(r) + multiset{s[k]} == multiset(s)
    ensures NoDup(s) ==> NoDup(r) && s[k] !in r
  {
    assert s == s[..k] + [s[k]] + s[k + 1..];
    s[..k] + s[k + 1..]
  }

  /**
   * `FormArray.removeAt(index)`, which behaves like `splice(index, 1)`: a
   * negative index counts from the end, one below `-length` is clamped to the
   * first element, and an index past the end removes nothing.
   */
  function RemoveAt<T(==)>(s: seq<T>, index: int): (r: seq<T>)
    ensures index >= |s| ==> r == s
    ensures 0 <= index < |s| ==> r == Without(s, index)
    ensures -|s| <= index < 0 ==> r == Without(s, index + |s|)
    ensures index < -|s| && s != [] ==> r == Without(s, 0)
    ensures forall y | y in r :: y in s
    ensures NoDup(s) ==> NoDup(r)
  {
    var adjusted := if index < 0 then index + |s| else index;
    var start := if adjusted < 0 then 0 else adjusted;
    if start < |s| then
      var r := Without(s, start);
      assert forall y | y in r :: y in multiset(r);
      r
    else s
  }

  /** The four chip lists of the `contacts` group. */
  datatype ChipKind = Names | Emails | Domains | Phones

  datatype ChipLists = ChipLists(names: seq<string>, emails: seq<string>, domains: seq<string>, phones: seq<string>)
  {
    function Get(kind: ChipKind): seq<string> {
      match kind
      case Names => names
      case Emails => emails
      case Domains => domains
      case Phones => phones
    }

    function With(kind: ChipKind, list: seq<string>): (r: ChipLists)
      ensures r.Get(kind) == list
      ensures forall k :: k != kind ==> r.Get(k) == Get(k)
    {
      match kind
      case Names => this.(names := list)
      case Emails => this.(emails := list)
      case Domains => this.(domains := list)
      case Phones => this.(phones := list)
    }

    /** No list holds a value twice. */
    predicate AllNoDup() {
      NoDup(names) && NoDup(emails) && NoDup(domains) && NoDup(phones)
    }

    /** Every email's domain is among the domains. */
    predicate EmailDomainsListed() {
      forall e | e in emails :: EmailDomain(e) in domains
    }
  }

  /** `email.substring(email.lastIndexOf('@') + 1)` */
  function EmailDomain(email: string): string {
    AfterLast(email, '@')
  }

  /**
   * `parsePhoneNumberFromString(value, { defaultCountry })`, followed by
   * `isValid()` and `formatInternational()`: the international form of a
   * valid number, or None. The library itself is not part of this model.
   */
  type PhoneFormatter = (string, string) -> Option<string>

  /** What one `addItem` call does: nothing, a rejection flagged with the trimmed value, or new lists. */
  datatype AddOutcome = Ignored | Rejected(value: string) | Accepted(lists: ChipLists)

  /**
   * `addItem(array, raw)` on the values of the four lists; `region` is the
   * default country for phone numbers.
   */
  function AddChip(lists: ChipLists, kind: ChipKind, raw: string, region: string, formatPhone: PhoneFormatter): (r: AddOutcome)
    ensures r.Ignored? <==> Trim(raw) == ""
    ensures r.Rejected? ==> r.value == Trim(raw) && kind != Names
    ensures kind == Emails ==> (r.Rejected? <==> Trim(raw) != "" && !IsEmail(Trim(raw)))
    ensures kind == Domains ==> (r.Rejected? <==> Trim(raw) != "" && !IsDomain(Trim(raw)))
    ensures kind == Phones ==> (r.Rejected? <==> Trim(raw) != "" && formatPhone(Trim(raw), region).None?)
  {
    var trimmed := Trim(raw);
    if trimmed == "" then Ignored
    else match kind
      case Names => Accepted(lists.(names := AppendIfAbsent(lists.names, trimmed)))
      case Emails =>
        if !IsEmail(trimmed) then Rejected(trimmed)
        else Accepted(lists.(emails := AppendIfAbsent(lists.emails, trimmed),
                             domains := AppendIfAbsent(lists.domains, EmailDomain(trimmed))))
      case Domains =>
        if !IsDomain(trimmed) then Rejected(trimmed)
        else Accepted(lists.(domains := AppendIfAbsent(lists.domains, trimmed)))
      case Phones =>
        match formatPhone(trimmed, region)
        case None => Rejected(trimmed)
        case Some(formatted) => Accepted(lists.(phones := AppendIfAbsent(lists.phones, formatted)))
  }

  /** The value an accepted call stores: the formatted number for a phone, the trimmed input otherwise. */
  function StoredValue(kind: ChipKind, raw: string, region: string, formatPhone: PhoneFormatter): string {
    if kind == Phones then formatPhone(Trim(raw), region).GetOr("") else Trim(raw)
  }

  /** Adding keeps every list free of repeats. */
  lemma AddChipKeepsNoDup(lists: ChipLists, kind: ChipKind, raw: string, region: string, formatPhone: PhoneFormatter)
    requires lists.AllNoDup()
    ensures var r := AddChip(lists, kind, raw, region, formatPhone);
      r.Accepted? ==> r.lists.AllNoDup()
  {
  }

  /** `after` is `before` with at most one value appended at the end. */
  predicate GrowsAtEnd(before: seq<string>, after: seq<string>) {
    |before| <= |after| <= |before| + 1 && after[..|before|] == before
  }

  /**
   * The effect of accepting a value on one list: the list grows at its end
   * and then holds the value.
   */
  lemma AppendIfAbsentGrows(s: seq<string>, x: string)
    ensures GrowsAtEnd(s, AppendIfAbsent(s, x)) && x in AppendIfAbsent(s, x)
  {
  }

  lemma UnchangedGrows(s: seq<string>)
    ensures GrowsAtEnd(s, s)
  {
    assert s[..|s|] == s;
  }

  /**
   * An accepted value ends up in its list; lists only grow at the end (by at
   * most one entry), so existing entries keep their positions, and no list
   * other than the chosen one (and `domains`, for an email) changes.
   */
  lemma AddChipAppends(lists: ChipLists, kind: ChipKind, raw: string, region: string, formatPhone: PhoneFormatter)
    ensures var r := AddChip(lists, kind, raw, region, formatPhone);
      r.Accepted? ==>
        && StoredValue(kind, raw, region, formatPhone) in r.lists.Get(kind)
        && GrowsAtEnd(lists.names, r.lists.names)
        && GrowsAtEnd(lists.emails, r.lists.emails)
        && GrowsAtEnd(lists.domains, r.lists.domains)
        && GrowsAtEnd(lists.phones, r.lists.phones)
        && (kind != Names ==> r.lists.names == lists.names)
        && (kind != Emails ==> r.lists.emails == lists.emails)
        && (kind != Domains && kind != Emails ==> r.lists.domains == lists.domains)
        && (kind != Phones ==> r.lists.phones == lists.phones)
  {
    var r := AddChip(lists, kind, raw, region, formatPhone);
    var t := Trim(raw);
    if r.Accepted? {
      UnchangedGrows(lists.names);
      UnchangedGrows(lists.emails);
      UnchangedGrows(lists.domains);
      UnchangedGrows(lists.phones);
      match kind
      case Names =>
        AppendIfAbsentGrows(lists.names, t);
      case Emails =>
        AppendIfAbsentGrows(lists.emails, t);
        AppendIfAbsentGrows(lists.domains, EmailDomain(t));
      case Domains =>
        AppendIfAbsentGrows(lists.domains, t);
      case Phones =>
        AppendIfAbsentGrows(lists.phones, formatPhone(t, region).value);
    }
  }

  /**
   * After an email is accepted, its domain (the part after its last '@')
   * passes the domain pattern and sits in `domains` exactly once.
   */
  lemma AddEmailListsDomainOnce(lists: ChipLists, raw: string, region: string, formatPhone: PhoneFormatter)
    requires NoDup(lists.domains)
    requires AddChip(lists, Emails, raw, region, formatPhone).Accepted?
    ensures var r := AddChip(lists, Emails, raw, region, formatPhone);
      var domain := EmailDomain(Trim(raw));
      && Trim(raw) in r.lists.emails
      && IsDomain(domain)
      && Count(r.lists.domains, domain) == 1
  {
    var r := AddChip(lists, Emails, raw, region, formatPhone);
    CountInNoDup(r.lists.domains, EmailDomain(Trim(raw)));
  }

  /** No chip added by `addItem` makes `domains` hold an empty string. */
  lemma AddChipKeepsDomainsNonEmpty(lists: ChipLists, kind: ChipKind, raw: string, region: string, formatPhone: PhoneFormatter)
    requires "" !in lists.domains
    ensures var r := AddChip(lists, kind, raw, region, formatPhone);
      r.Accepted? ==> "" !in r.lists.domains
  {
    var r := AddChip(lists, kind, raw, region, formatPhone);
  }

  /** Adding the same value a second time changes nothing more: `addItem` is idempotent. */
  lemma AddChipIdempotent(lists: ChipLists, kind: ChipKind, raw: string, region: string, formatPhone: PhoneFormatter)
    ensures var r := AddChip(lists, kind, raw, region, formatPhone);
      r.Accepted? ==> AddChip(r.lists, kind, raw, region, formatPhone) == r
  {
  }

  /** Adding keeps "every email's domain is listed" (removing a domain chip is what can break it). */
  lemma AddChipKeepsEmailDomainsListed(lists: ChipLists, kind: ChipKind, raw: string, region: string, formatPhone: PhoneFormatter)
    requires lists.EmailDomainsListed()
    ensures var r := AddChip(lists, kind, raw, region, formatPhone);
      r.Accepted? ==> r.lists.EmailDomainsListed()
  {
  }

  /** A token with a space in it is rejected as a domain, and flagged as typed. */
  lemma NotADomainIsRejected(lists: ChipLists, region: string, formatPhone: PhoneFormatter)
    ensures AddChip(lists, Domains, "not a domain", region, formatPhone) == Rejected("not a domain")
  {
    var s := "not a domain";
    TrimStartOfTrimmed(s);
    TrimEndOfTrimmed(s);
    assert !DomainFrom(s, 3, false, 3);
    assert !DomainFrom(s, 2, false, 2);
    assert !DomainFrom(s, 1, false, 1);
  }

  /** The first position of `x` in `s`, or -1: `indexOf`. */
  function IndexOf<T(==)>(s: seq<T>, x: T): (r: int)
    ensures -1 <= r < |s|
    ensures r == -1 <==> x !in s
    ensures r >= 0 ==> s[r] == x && forall k | 0 <= k < r :: s[k] != x
  {
    if s == [] then -1
    else if s[0] == x then 0
    else
      var k := IndexOf(s[1..], x);
      if k < 0 then -1 else k + 1
  }

  /**
   * `emails.filter((e) => !!e).map((e) => e.substring(e.lastIndexOf('@') + 1))`:
   * one domain per non-empty email. `DomainCandidatesAppend` says they come
   * in the order of the emails.
   */
  function DomainCandidates(emails: seq<string>): (r: seq<string>)
    ensures |r| == |emails| - Count(emails, "")
    ensures forall e | e in emails && e != "" :: EmailDomain(e) in r
    ensures forall d | d in r :: exists e | e in emails :: e != "" && EmailDomain(e) == d
  {
    if emails == [] then []
    else
      var init := emails[..|emails| - 1];
      var last := emails[|emails| - 1];
      var front := DomainCandidates(init);
      assert forall e | e in emails :: e in init || e == last;
      assert forall e | e in init :: e in emails;
      if last != "" then front + [EmailDomain(last)] else front
  }

  /** What one email adds to the candidates: its domain, unless it is empty. */
  function CandidateOf(e: string): seq<string> {
    if e != "" then [EmailDomain(e)] else []
  }

  /** Adding one email at the end adds its candidate at the end. */
  lemma DomainCandidatesSnoc(emails: seq<string>, e: string)
    ensures DomainCandidates(emails + [e]) == DomainCandidates(emails) + CandidateOf(e)
  {
    assert (emails + [e])[..|emails|] == emails;
  }

  /** The candidates of two runs of emails, one after the other, are the candidates of each in turn. */
  lemma {:induction false} DomainCandidatesAppend(a: seq<string>, b: seq<string>)
    ensures DomainCandidates(a + b) == DomainCandidates(a) + DomainCandidates(b)
    decreases |b|
  {
    if b == [] {
      assert a + b == a;
    } else {
      var init, last := b[..|b| - 1], b[|b| - 1];
      assert b == init + [last];
      DomainCandidatesAppend(a, init);
      DomainCandidatesSnocAfter(a, init, last);
      DomainCandidatesSnoc(init, last);
      AppendAssoc(DomainCandidates(a), DomainCandidates(init), CandidateOf(last));
    }
  }

  /** One more email after two runs of emails adds its candidate at the end. */
  lemma DomainCandidatesSnocAfter(a: seq<string>, init: seq<string>, last: string)
    ensures DomainCandidates(a + (init + [last])) == DomainCandidates(a + init) + CandidateOf(last)
  {
    assert a + (init + [last]) == (a + init) + [last];
    DomainCandidatesSnoc(a + init, last);
  }

  lemma AppendAssoc(x: seq<string>, y: seq<string>, z: seq<string>)
    ensures (x + y) + z == x + (y + z)
  {
  }

  /**
   * `arr.filter((d, i) => d && arr.indexOf(d) === i)` over the positions from
   * `i` on: the non-empty values at their first occurrence, in order.
   */
  function FirstOccurrencesFrom(arr: seq<string>, i: nat): (r: seq<string>)
    requires i <= |arr|
    ensures forall d | d in r :: d != "" && i <= IndexOf(arr, d)
    ensures forall k | i <= k < |arr| :: arr[k] != "" && IndexOf(arr, arr[k]) == k ==> arr[k] in r
    ensures forall p, q | 0 <= p < q < |r| :: IndexOf(arr, r[p]) < IndexOf(arr, r[q])
    decreases |arr| - i
  {
    if i == |arr| then []
    else
      var rest := FirstOccurrencesFrom(arr, i + 1);
      if arr[i] != "" && IndexOf(arr, arr[i]) == i then [arr[i]] + rest else rest
  }

  /**
   * The `emailDomains` chain of `onSubmit`: the domains of the non-empty
   * emails, empty ones dropped, each once.
   */
  function EmailDomains(emails: seq<string>): (r: seq<string>)
    ensures NoDup(r)
    ensures forall d | d in r :: d != "" && d in DomainCandidates(emails)
  {
    FirstOccurrencesFrom(DomainCandidates(emails), 0)
  }

  /** Nothing is lost: every non-empty candidate domain is kept. */
  lemma EmailDomainsComplete(emails: seq<string>)
    ensures forall d | d != "" && d in DomainCandidates(emails) :: d in EmailDomains(emails)
  {
    var cands := DomainCandidates(emails);
    forall d | d != "" && d in cands
      ensures d in EmailDomains(emails)
    {
      var k := IndexOf(cands, d);
      assert cands[k] == d;
    }
  }

  /** The kept domains appear in the order of their first occurrence among the candidates. */
  lemma EmailDomainsInFirstOccurrenceOrder(emails: seq<string>)
    ensures var r := EmailDomains(emails);
      forall p, q | 0 <= p < q < |r| ::
        IndexOf(DomainCandidates(emails), r[p]) < IndexOf(DomainCandidates(emails), r[q])
  {
  }

  /** Every non-empty domain of an email is among `EmailDomains(emails)`, and only such domains are. */
  lemma EmailDomainsOfEmails(emails: seq<string>)
    ensures forall e | e in emails && EmailDomain(e) != "" :: EmailDomain(e) in EmailDomains(emails)
    ensures forall d | d in EmailDomains(emails) :: d != "" && exists e | e in emails :: EmailDomain(e) == d
  {
    EmailDomainsComplete(emails);
  }

  /**
   * `validateDateOrder`: the form-level `invalidDateOrder` error, raised when
   * both dates are present and the publication date is the later one.
   */
  function ValidateDateOrder(publication: Option<JsDate>, application: Option<JsDate>): (invalidDateOrder: bool)
    ensures publication.None? || application.None? ==> !invalidDateOrder
    ensures publication.Some? && application.Some? ==>
      (invalidDateOrder <==> After(publication.value, application.value))
  {
    publication.Some? && application.Some? && After(publication.value, application.value)
  }

  /**
   * Equal dates pass, and of two different present dates exactly one order is
   * flagged: the rule is "publication no later than application".
   */
  lemma DateOrderFlagsOneOrder(a: JsDate, b: JsDate)
    ensures !ValidateDateOrder(Some(a), Some(a))
    ensures a != b ==> ValidateDateOrder(Some(a), Some(b)) != ValidateDateOrder(Some(b), Some(a))
  {
    AfterIsStrictTotalOrder(a, b, a);
  }

  /** `Validators.required`: the value is neither null nor the empty string (blank text passes). */
  predicate Required(value: Option<string>) {
    value.Some? && value.value != ""
  }

  /**
   * `form.invalid` is false: company name, job title and status are filled in,
   * an application date is set, and `validateDateOrder` raises no error, that
   * is, any publication date is the application date or earlier.
   */
  predicate FormValid(companyName: Option<string>, jobTitle: Option<string>, status: Option<string>,
                      publication: Option<JsDate>, application: Option<JsDate>): (valid: bool)
    ensures valid <==>
      && Required(companyName) && Required(jobTitle) && Required(status) && application.Some?
      && (publication.None? || publication.value == application.value || After(application.value, publication.value))
  {
    var valid := Required(companyName) && Required(jobTitle) && Required(status)
      && application.Some? && !ValidateDateOrder(publication, application);
    if application.Some? && publication.Some? then
      AfterIsStrictTotalOrder(publication.value, application.value, application.value);
      valid
    else valid
  }

  /**
   * The default country for phone numbers in `addItem`:
   * `form.get('country').value || 'FR'`.
   */
  function Region(country: Option<string>): (r: string)
    ensures r != ""
    ensures country.Some? && country.value != "" ==> r == country.value
  {
    if country.Some? && country.value != "" then country.value else "FR"
  }

  /**
   * The `domains` list after the back-fill of the current `onSubmit`: when
   * no domain was entered but emails were, the emails' domains replace it;
   * otherwise it is kept as it is.
   */
  function Backfill(emails: seq<string>, domains: seq<string>): (r: seq<string>)
    ensures domains != [] ==> r == domains
    ensures NoDup(domains) ==> NoDup(r)
    ensures "" !in domains ==> "" !in r
  {
    if domains == [] && emails != [] then EmailDomains(emails) else domains
  }

  /**
   * After the back-fill, an empty `domains` list has been filled with the
   * domain of every email, and every listed domain was either entered or
   * taken from an email.
   */
  lemma BackfillCoversEmails(emails: seq<string>, domains: seq<string>)
    ensures var r := Backfill(emails, domains);
      && (domains == [] ==> forall e | e in emails && EmailDomain(e) != "" :: EmailDomain(e) in r)
      && (forall d | d in r :: d in domains || (d != "" && exists e | e in emails :: EmailDomain(e) == d))
  {
    EmailDomainsOfEmails(emails);
  }

  /**
   * The back-fill of the older `onSubmit`: the emails' domains replace
   * `domains` when there is at least one of them and `domains` is empty or
   * starts with an empty entry.
   */
  function LegacyBackfill(emails: seq<string>, domains: seq<string>): (r: seq<string>)
    ensures domains != [] && domains[0] != "" ==> r == domains
    ensures EmailDomains(emails) == [] ==> r == domains
    ensures NoDup(domains) ==> NoDup(r)
    ensures "" !in domains ==> "" !in r
  {
    var emailDomains := EmailDomains(emails);
    if emailDomains != [] && (domains == [] || domains[0] == "") then emailDomains else domains
  }

  /**
   * While `domains` holds no empty entry (which `addItem` guarantees), the
   * two revisions back-fill alike: when emails are present but none yields
   * a domain, the newer one writes the empty list over an empty list.
   */
  lemma BackfillRevisionsAgree(emails: seq<string>, domains: seq<string>)
    requires "" !in domains
    ensures LegacyBackfill(emails, domains) == Backfill(emails, domains)
  {
    if domains != [] {
      assert domains[0] in domains;
    }
  }
}
