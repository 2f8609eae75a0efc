/**
 * One user record of the remote collection, as the table reads it. The nested address and
 * company objects, and each of their fields, may be missing (null or undefined).
 */
module Records {
  import opened Wrappers

  datatype Address = Address(
    suite: Option<string>,
    street: Option<string>,
    city: Option<string>,
    zipcode: Option<string>)

  datatype Company = Company(
    name: Option<string>,
    bs: Option<string>,
    catchPhrase: Option<string>)

  /** `name` and `email` are assumed present: the filter calls `.toLowerCase()` on them and would throw otherwise. */
  datatype User = User(
    id: int,
    name: string,
    username: string,
    email: string,
    address: Option<Address>,
    phone: string,
    website: string,
    company: Option<Company>)

  /** The three menu keys: filter by name, filter by email, and clear filters. */
  datatype FilterKey = FilterByName | FilterByEmail | ClearFilters
}
