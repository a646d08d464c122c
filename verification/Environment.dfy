/** Foreign code and files the wallet depends on, as parameters. */
module Environment {
  import opened Configuration
  import opened Encryption
  import opened Serialization
  import opened Wrappers

  datatype Parsed = Json(tree: Tree) | BadJson(what: string)

  datatype World = World(
    toText: Tree -> ByteString,                   // JSON serializer
    fromText: string -> Parsed,                   // JSON deserializer
    certificateKey: string -> Option<string>,     // public key of a certificate, if it parses
    privateKey: string -> Option<string>,         // public key of a private key, if it parses
    matches: Matcher,                             // regular expressions
    cipher: Cipher,
    hardwareUuid: ByteString,
    configurationFile: seq<PortfolioConfiguration>) {

    /** What is assumed: JSON text is an inverse pair on trees, no serialized tree reads `ERROR`,
        and the cipher is inverse under the same key. */
    ghost predicate Sound() {
      && (forall t :: fromText(toText(t)) == Json(t) && toText(t) != "ERROR")
      && cipher.Sound()
    }

    lemma TextInjective(a: Tree, b: Tree)
      requires Sound()
      ensures toText(a) == toText(b) <==> a == b
    {
      assert fromText(toText(a)) == Json(a) && fromText(toText(b)) == Json(b);
    }
  }
}
