/** What the modules share: SQL NULL / Python `None`, a call that may raise, the default tenant, relationship tuples. */
module Types {
  datatype Option<+T> = None | Some(value: T)

  datatype Result<+T, +E> = Ok(value: T) | Err(error: E)

  /** Python's `x or None` on a nullable text: the empty string counts as absent. */
  function Truthy(x: Option<string>): Option<string>
  {
    if x == Some("") then None else x
  }

  /** Python's `x or default`. */
  function Or(x: Option<string>, default: string): string
  {
    match Truthy(x)
    case None => default
    case Some(v) => v
  }

  const DEFAULT_TENANT := "asg"

  function TenantOr(tenant: string): string
  {
    if tenant == "" then DEFAULT_TENANT else tenant
  }

  /** A row of `relationship_tuples`; (tenant, object, relation, user) is UNIQUE. */
  datatype Relation = Relation(tenant: string, resource: string, relation: string, user: string)
}
