/**
 * The render callbacks of the Address and Company column groups:
 * `record?.address?.<part> ?? "N/A"` and `record?.company?.<part> ?? "N/A"`.
 */
module Render {
  import opened Wrappers
  import opened Records

  const NOT_AVAILABLE: string := "N/A"

  datatype AddressPart = Suite | Street | City | Zipcode

  datatype CompanyPart = CompanyName | Bs | CatchPhrase

  function AddressField(a: Address, part: AddressPart): Option<string> {
    match part
    case Suite => a.suite
    case Street => a.street
    case City => a.city
    case Zipcode => a.zipcode
  }

  function CompanyField(c: Company, part: CompanyPart): Option<string> {
    match part
    case CompanyName => c.name
    case Bs => c.bs
    case CatchPhrase => c.catchPhrase
  }

  /** `o ?? fallback`: only a missing value is replaced; an empty string is shown as it is. */
  function Coalesce(o: Option<string>, fallback: string): string {
    match o
    case Some(v) => v
    case None => fallback
  }

  /** `o?.f`: a missing object gives a missing field. */
  function Chain<A, B>(o: Option<A>, f: A -> Option<B>): Option<B> {
    match o
    case Some(a) => f(a)
    case None => None
  }

  function AddressCell(record: Option<User>, part: AddressPart): (cell: string)
    ensures record.Some? && record.value.address.Some? && AddressField(record.value.address.value, part).Some?
      ==> cell == AddressField(record.value.address.value, part).value
    ensures record.None? || record.value.address.None? || AddressField(record.value.address.value, part).None?
      ==> cell == NOT_AVAILABLE
  {
    Coalesce(Chain(Chain(record, (u: User) => u.address), (a: Address) => AddressField(a, part)), NOT_AVAILABLE)
  }

  function CompanyCell(record: Option<User>, part: CompanyPart): (cell: string)
    ensures record.Some? && record.value.company.Some? && CompanyField(record.value.company.value, part).Some?
      ==> cell == CompanyField(record.value.company.value, part).value
    ensures record.None? || record.value.company.None? || CompanyField(record.value.company.value, part).None?
      ==> cell == NOT_AVAILABLE
  {
    Coalesce(Chain(Chain(record, (u: User) => u.company), (c: Company) => CompanyField(c, part)), NOT_AVAILABLE)
  }

  /** A record without an address shows "N/A" in all four address columns. */
  lemma MissingAddressAllNotAvailable(u: User)
    requires u.address.None?
    ensures forall part :: AddressCell(Some(u), part) == NOT_AVAILABLE
  {
  }

  /** A missing company field shows "N/A" in that column only; the other company columns show their values. */
  lemma MissingCompanyFieldOnlyThatColumn(u: User, part: CompanyPart)
    requires u.company.Some? && CompanyField(u.company.value, part).None?
    requires forall p :: p != part ==> CompanyField(u.company.value, p).Some?
    ensures CompanyCell(Some(u), part) == NOT_AVAILABLE
    ensures forall p :: p != part ==> CompanyCell(Some(u), p) == CompanyField(u.company.value, p).value
  {
  }
}
