/**
 * `ApplicationMapper.toResponse`: a field-for-field copy of an entity into
 * its response, with the contacts copied into a `ContactsDTO` when present.
 */
module ApplicationMapper {
  import opened Wrappers
  import opened BackendModel

  /** `new ContactsDTO(names, emails, domains, phones)` from an entity's contacts. */
  function ContactsToDto(c: Contacts): (r: ContactsDto)
    ensures ContactsFromDto(r) == c
  {
    ContactsDto(c.names, c.emails, c.domains, c.phones)
  }

  /** `new Contacts(names, emails, domains, phones)` from a request's contacts. */
  function ContactsFromDto(d: ContactsDto): (r: Contacts)
  {
    Contacts(d.names, d.emails, d.domains, d.phones)
  }

  /** Copying contacts out of a DTO and back gives the DTO again. */
  lemma ContactsDtoRoundTrip(d: ContactsDto)
    ensures ContactsToDto(ContactsFromDto(d)) == d
  {
  }

  /** `toResponse(entity)` */
  function ToResponse(e: Application): (r: ApplicationResponse)
    ensures r.id == e.id
    ensures r.contacts.None? <==> e.contacts.None?
  {
    ApplicationResponse(e.id, e.companyName, e.jobTitle, e.jobLink, e.country, e.publicationDate,
      e.applicationDate, e.status,
      if e.contacts.Some? then Some(ContactsToDto(e.contacts.value)) else None,
      e.followUpDates, e.sentFiles)
  }

  /** The entity a response describes: the inverse of `ToResponse`. */
  function FromResponse(r: ApplicationResponse): (e: Application)
  {
    Application(r.id, r.companyName, r.jobTitle, r.jobLink, r.country, r.publicationDate,
      r.applicationDate, r.status,
      if r.contacts.Some? then Some(ContactsFromDto(r.contacts.value)) else None,
      r.followUpDates, r.sentFiles)
  }

  /** Nothing is lost: the entity can be read back from its response. */
  lemma ToResponseLosesNothing(e: Application)
    ensures FromResponse(ToResponse(e)) == e
  {
  }

  /** Two different entities never map to the same response. */
  lemma ToResponseInjective(a: Application, b: Application)
    ensures ToResponse(a) == ToResponse(b) ==> a == b
  {
    ToResponseLosesNothing(a);
    ToResponseLosesNothing(b);
  }
}
