/** The "Clientes" page: the search predicate and the case-count badge. */
module Clientes {
  import opened Wrappers
  import opened Seqs
  import opened Text

  /** A client; `casesCount` is `_count.cases`, absent when the list omits `_count`. */
  datatype Client = Client(id: string, name: string, phone: string, email: Option<string>, casesCount: Option<nat>)

  /** Name and email are compared lower-cased; the phone verbatim; a null email never matches. */
  predicate ClientMatches(c: Client, search: string) {
    || search == ""
    || Includes(ToLower(c.name), ToLower(search))
    || Includes(c.phone, search)
    || (c.email.Some? && c.email.value != "" && Includes(ToLower(c.email.value), ToLower(search)))
  }

  /** `filtered`. */
  function FilteredClients(clients: seq<Client>, search: string): seq<Client> {
    Filter(clients, (c: Client) => ClientMatches(c, search))
  }

  /**
   * The kept clients are, in their order, exactly the matching ones; an empty search
   * keeps them all.
   */
  lemma FilteredClientsSpec(clients: seq<Client>, search: string)
    ensures var r := FilteredClients(clients, search);
      && IsSubsequence(r, clients)
      && (forall c :: c in clients ==> (c in r <==> ClientMatches(c, search)))
    ensures search == "" ==> FilteredClients(clients, search) == clients
  {
    FilterIsSubsequence(clients, (c: Client) => ClientMatches(c, search));
    if search == "" {
      FilterAll(clients, (c: Client) => ClientMatches(c, search));
    }
  }

  /** The badge: shown only with a positive count; 'caso' for one, 'casos' for more. */
  function CaseBadge(c: Client): (r: Option<string>)
    ensures r.Some? <==> c.casesCount.Some? && c.casesCount.value > 0
    ensures r.Some? ==> r.value == NatToString(c.casesCount.value) + (if c.casesCount.value > 1 then " casos" else " caso")
  {
    if c.casesCount.Some? && c.casesCount.value > 0 then
      var n := c.casesCount.value;
      Some(NatToString(n) + " caso" + (if n > 1 then "s" else ""))
    else None
  }
}
