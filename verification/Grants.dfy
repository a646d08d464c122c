/** Who holds what, read off the entries of the configuration file. */
module Grants {
  import opened Environment
  import opened ReadPaths
  import opened ServerSteps
  import opened StepLaws

  /** Some consumer entry of the portfolio matches the client and grants the usage. */
  ghost predicate Consumes(w: World, st: State, name: string, client: string, u: string) {
    && name in st.wallet.configurations
    && exists c :: c in st.wallet.configurations[name].consumers && w.matches(c.regex, client) && u in c.usages
  }

  /** Some producer entry of the portfolio matches the client and grants the usage. */
  ghost predicate Produces(w: World, st: State, name: string, client: string, u: string) {
    && name in st.wallet.configurations
    && exists c :: c in st.wallet.configurations[name].producers && w.matches(c.regex, client) && u in c.usages
  }

  /** What the handlers collect for a client is what the entries grant it. */
  lemma GrantedByEntries(w: World, st: State, name: string, client: string)
    ensures forall u :: u in Consumable(w, st, name, client) <==> Consumes(w, st, name, client, u)
    ensures forall u :: u in Producible(w, st, name, client) <==> Produces(w, st, name, client, u)
  {
  }

  lemma SomeConsumed(w: World, st: State, name: string, client: string, usages: set<string>)
    ensures Consumable(w, st, name, client) != {} <==> exists u :: Consumes(w, st, name, client, u)
    ensures Consumable(w, st, name, client) * usages != {}
       <==> exists u :: u in usages && Consumes(w, st, name, client, u)
  {
    var all := Consumable(w, st, name, client);
    GrantedByEntries(w, st, name, client);
    if u :| u in usages && Consumes(w, st, name, client, u) { assert u in all * usages; }
    if u :| Consumes(w, st, name, client, u) { assert u in all; }
    if all != {} { var u :| u in all; }
    if all * usages != {} { var u :| u in all * usages; }
  }

  lemma SomeProduced(w: World, st: State, name: string, client: string)
    ensures Producible(w, st, name, client) != {} <==> exists u :: Produces(w, st, name, client, u)
  {
    var all := Producible(w, st, name, client);
    GrantedByEntries(w, st, name, client);
    if u :| Produces(w, st, name, client, u) { assert u in all; }
    if all != {} { var u :| u in all; }
  }
}
