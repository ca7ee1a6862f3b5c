/**
 * The back end's records: the `Application` entity with its embedded
 * `Contacts`, the create/update request and the response DTOs, the
 * `LocalDate` order and `String.isBlank`. Every Java reference that may be
 * null is an `Option`.
 */
module BackendModel {
  import opened Wrappers

  /** The repository's `UUID` keys, drawn from a counter. */
  type Uuid = nat

  type Month = m: int | 1 <= m <= 12 witness 1
  type Day = d: int | 1 <= d <= 31 witness 1

  /** `java.time.LocalDate` */
  datatype LocalDate = LocalDate(year: int, month: Month, day: Day)

  /** `a.isAfter(b)`: `a` is a strictly later day. */
  predicate IsAfter(a: LocalDate, b: LocalDate) {
    a.year > b.year
    || (a.year == b.year && a.month > b.month)
    || (a.year == b.year && a.month == b.month && a.day > b.day)
  }

  /** `isAfter` is the strict order of days: irreflexive, transitive and total on distinct days. */
  lemma IsAfterIsStrictTotalOrder(a: LocalDate, b: LocalDate, c: LocalDate)
    ensures !IsAfter(a, a)
    ensures IsAfter(a, b) && IsAfter(b, c) ==> IsAfter(a, c)
    ensures a != b ==> IsAfter(a, b) != IsAfter(b, a)
  {
  }

  /** `Character.isWhitespace`: the Unicode space separators other than the no-break spaces, and the ASCII controls it names. */
  predicate IsJavaWhitespace(c: char) {
    var n := c as int;
    (0x09 <= n <= 0x0D) || (0x1C <= n <= 0x20) || n == 0x1680
    || (0x2000 <= n <= 0x2006) || (0x2008 <= n <= 0x200A)
    || n == 0x2028 || n == 0x2029 || n == 0x205F || n == 0x3000
  }

  /** `s.isBlank()`: empty, or whitespace only. */
  predicate IsBlank(s: string) {
    s == [] || (IsJavaWhitespace(s[0]) && IsBlank(s[1..]))
  }

  /** `s == null || s.isBlank()`, the test of a required text field. */
  predicate Missing(s: Option<string>) {
    s.None? || IsBlank(s.value)
  }

  /** The embedded `Contacts` of an entity. */
  datatype Contacts = Contacts(
    names: Option<seq<string>>,
    emails: Option<seq<string>>,
    domains: Option<seq<string>>,
    phones: Option<seq<string>>)

  /** `ContactsDTO`, in requests and responses. */
  datatype ContactsDto = ContactsDto(
    names: Option<seq<string>>,
    emails: Option<seq<string>>,
    domains: Option<seq<string>>,
    phones: Option<seq<string>>)

  /** `ApplicationCreateRequest`, the body of a create and of an update. */
  datatype CreateRequest = CreateRequest(
    companyName: Option<string>,
    jobTitle: Option<string>,
    jobLink: Option<string>,
    country: Option<string>,
    publicationDate: Option<LocalDate>,
    applicationDate: Option<LocalDate>,
    status: Option<string>,
    contacts: Option<ContactsDto>,
    followUpDates: Option<seq<LocalDate>>,
    sentFiles: Option<seq<string>>)

  /**
   * The `Application` entity. The columns declared `nullable = false`
   * (company name, job title, application date, status) are never null
   * once the service has stored a record.
   */
  datatype Application = Application(
    id: Uuid,
    companyName: string,
    jobTitle: string,
    jobLink: Option<string>,
    country: Option<string>,
    publicationDate: Option<LocalDate>,
    applicationDate: LocalDate,
    status: string,
    contacts: Option<Contacts>,
    followUpDates: Option<seq<LocalDate>>,
    sentFiles: Option<seq<string>>)

  /** `ApplicationResponse` */
  datatype ApplicationResponse = ApplicationResponse(
    id: Uuid,
    companyName: string,
    jobTitle: string,
    jobLink: Option<string>,
    country: Option<string>,
    publicationDate: Option<LocalDate>,
    applicationDate: LocalDate,
    status: string,
    contacts: Option<ContactsDto>,
    followUpDates: Option<seq<LocalDate>>,
    sentFiles: Option<seq<string>>)

  /** `BadRequestException` with its messages, or `ResourceNotFoundException` for an id. */
  datatype ServiceError = BadRequest(messages: seq<string>) | NotFound(id: Uuid)
}
