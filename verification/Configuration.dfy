/** Who may read and write documents of which usage (`secw_configuration`, `secw_helpers`). */
module Configuration {
  import opened Ordering

  /** A consumer or a producer. */
  datatype Client = Client(regex: string, usages: set<string>)

  datatype PortfolioConfiguration = PortfolioConfiguration(
    portfolioName: string,
    usages: set<string>,
    consumers: seq<Client>,
    producers: seq<Client>)

  /** Regular expressions are foreign code: any relation between a pattern and a client id. */
  type Matcher = (string, string) -> bool

  /** The usages granted to a client: those of every entry whose pattern it matches. */
  function GrantedUsages(matches: Matcher, clients: seq<Client>, clientId: string): set<string> {
    set c, u | c in clients && matches(c.regex, clientId) && u in c.usages :: u
  }

  function ConsumerUsages(matches: Matcher, config: PortfolioConfiguration, clientId: string): set<string> {
    GrantedUsages(matches, config.consumers, clientId)
  }

  function ProducerUsages(matches: Matcher, config: PortfolioConfiguration, clientId: string): set<string> {
    GrantedUsages(matches, config.producers, clientId)
  }

  method CollectUsages(matches: Matcher, clients: seq<Client>, clientId: string) returns (usages: set<string>)
    ensures usages == GrantedUsages(matches, clients, clientId)
  {
    usages := {};
    for i := 0 to |clients|
      invariant usages == GrantedUsages(matches, clients[..i], clientId)
    {
      var client := clients[i];
      assert clients[..i + 1] == clients[..i] + [client];
      if matches(client.regex, clientId) {
        usages := usages + client.usages;
      }
    }
    assert clients[..|clients|] == clients;
  }

  /** The usages that one of two documents carries and the other does not. */
  method DifferenceBetween2UsagesIdSet(a: set<string>, b: set<string>) returns (diff: set<string>)
    ensures forall u :: u in diff <==> (u in a) != (u in b)
  {
    diff := {};
    var left := Ascending(a);
    for i := 0 to |left|
      invariant forall u :: u in diff <==> u in left[..i] && u !in b
    {
      assert left[..i + 1] == left[..i] + [left[i]];
      if left[i] !in b {
        diff := diff + {left[i]};
      }
    }
    assert left[..|left|] == left;
    var right := Ascending(b);
    for i := 0 to |right|
      invariant forall u :: u in diff <==> (u in a && u !in b) || (u in right[..i] && u !in a)
    {
      assert right[..i + 1] == right[..i] + [right[i]];
      if right[i] !in a {
        diff := diff + {right[i]};
      }
    }
    assert right[..|right|] == right;
  }

  method HasCommonUsageIds(usages1: set<string>, usages2: set<string>) returns (matching: bool)
    ensures matching <==> exists u :: u in usages1 && u in usages2
  {
    matching := false;
    var keys := Ascending(usages1);
    for i := 0 to |keys|
      invariant !matching
      invariant forall k | 0 <= k < i :: keys[k] !in usages2
    {
      if keys[i] in usages2 {
        matching := true;
        break;
      }
    }
  }

  /** The check made on the usages of a document: an error names the first one not allowed. */
  method FirstForbidden(usages: set<string>, allowed: set<string>) returns (found: bool, usage: string)
    ensures found <==> usages - allowed != {}
    ensures found ==> IsLeast(usage, usages - allowed)
  {
    found, usage := false, "";
    var keys := Ascending(usages);
    for i := 0 to |keys|
      invariant !found
      invariant forall k | 0 <= k < i :: keys[k] in allowed
    {
      if keys[i] !in allowed {
        found, usage := true, keys[i];
        AscendingIsSorted(usages);
        forall x | x in usages - allowed ensures x == usage || Below(usage, x) {
          var k :| 0 <= k < |keys| && keys[k] == x;
        }
        assert usage in usages - allowed;
        return;
      }
    }
    assert usages <= allowed;
  }
}
