/** A proposed action and who proposes it, as `src/ctrlrun/action.py` stores them. */
module Actions {
  import opened Options
  import opened Values

  /** Claims and issuer are left out: no decision modelled here reads them. */
  datatype Principal = Principal(agent: string, user: Option<string>, expiresAt: Option<int>)

  datatype Action = Action(
    name: string,
    arguments: seq<Field>,
    principal: Principal,
    resource: Option<string>,
    environment: string,
    actionId: string)

  ghost predicate ValidAction(a: Action) {
    && a.name != [] && a.environment != [] && a.resource != Some([])
    && a.principal.agent != [] && a.principal.user != Some([])
    && WellFormed(Dict(a.arguments))
  }
}
