/** Which documents a restored backup brings back, one by one. */
module RestoredDocuments {
  import opened Documents
  import opened Encryption
  import opened Environment
  import opened Ordering
  import opened PortfolioLaws
  import opened Portfolios
  import opened Serialization
  import opened WalletLaws
  import opened Wallets
  import opened Wrappers

  /** `index` has those documents of `before` that are not internal certificates, or all of them on the platform
      the backup was made on; each is marked as holding private data. */
  ghost predicate BroughtBack(before: map<string, Doc>, index: map<string, Doc>, same: bool) {
    && (forall k :: k in index <==> k in before && (same || !before[k].content.InternalCertificate?))
    && (forall k | k in index :: index[k] == before[k].(containPrivateData := true))
  }

  lemma KeepBrings(p: Portfolio, same: bool)
    ensures var q := MarkAll(Keep(p, same));
            q.name == p.name && BroughtBack(p.byId, q.byId, same) && BroughtBack(p.byName, q.byName, same)
  {
    forall d: Doc ensures Restorable(d, same) <==> same || !d.content.InternalCertificate? {
      InternalByType(d.content);
    }
  }

  lemma InternalByType(c: Content)
    ensures TypeOf(c) == INTERNAL_CERTIFICATE_TYPE <==> c.InternalCertificate?
  {
  }

  /** Both indexes of each portfolio of the backup, in order; only empty portfolios follow. */
  ghost predicate AllBroughtBack(ps: seq<Portfolio>, qs: seq<Portfolio>, same: bool) {
    && |ps| <= |qs|
    && (forall i | 0 <= i < |ps| ::
          qs[i].name == ps[i].name && BroughtBack(ps[i].byId, qs[i].byId, same)
          && BroughtBack(ps[i].byName, qs[i].byName, same))
    && (forall i | |ps| <= i < |qs| :: qs[i] == Portfolio(qs[i].name, map[], map[]))
  }

  /** A backup of a good wallet read under its passphrase: on the platform it was made on nothing is missing, on
      any other exactly the internal certificates are, from both indexes; the rest is as it was, marked. */
  lemma RestoreBringsBack(w: World, savedOn: ByteString, ps: seq<Portfolio>, passphrase: ByteString, si: Tree)
    requires w.Sound() && Good(w, ps) && LoadConfigurations(w.configurationFile).Success?
    requires IsBackup(w, savedOn, ps, passphrase, si)
    ensures Restore(w, si, passphrase, "1.0").Success?
    ensures AllBroughtBack(ps, Restore(w, si, passphrase, "1.0").value.portfolios, savedOn == w.hardwareUuid)
  {
    var same, c := savedOn == w.hardwareUuid, LoadConfigurations(w.configurationFile).value;
    var kept := MarkEach(KeepEach(ps, same));
    RestoreOwnBackup(w, savedOn, ps, passphrase, si);
    MissingAdded(kept, Ascending(c.Keys));
    var qs := AddMissing(kept, Ascending(c.Keys));
    forall i | 0 <= i < |ps|
      ensures qs[i].name == ps[i].name && BroughtBack(ps[i].byId, qs[i].byId, same)
      ensures BroughtBack(ps[i].byName, qs[i].byName, same)
    {
      KeepBrings(ps[i], same);
      assert qs[i] == kept[i] == MarkAll(Keep(ps[i], same));
    }
  }
}
