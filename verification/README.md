# Security wallet and credential asset mapping: a verified model

The agent runs two services. Each keeps a store in memory, writes it to a file on every change, and
answers one request at a time. This project models both and proves what every step keeps, what a whole
run amounts to, and that the in-place code computes what the step functions say.

**Security wallet.** A wallet holds a list of portfolios. A portfolio keeps documents in two indexes (by id
and by name) over the same objects. A document has a header, a public part and a secret part; an update
merges a request into a working copy, field by field. Clients hold usages per portfolio, granted by
patterns in a configuration file. Every change is saved and announced by one notification. The wallet can
be backed up, encrypted, and restored on the same or another platform.

**Credential asset mapping.** A store keeps one mapping (port, credential, status, extended data) per asset,
service and protocol, under a key that is one string made of the three ids.

## How it is built

- Values and specification functions: `Documents`, `Portfolios`, `Wallets`, `ServerSteps` for the wallet;
  `Mappings`, `MappingErrors`, `MappingKeys`, `MappingStorage`, `MappingSteps` for the mappings. Exceptions
  are `Result` values. A serialization tree is a datatype (`Serialization`), a file is an optional text.
- Laws and whole runs over those functions: `DocumentLaws`, `PortfolioLaws`, `WalletLaws`, `StepLaws`, `Restores`,
  `Runs`, `AnyRuns`, `Notifications`, `Changes`, `UpdateFlags`, `Confinement`, `ReadPaths`, `Exchanges`,
  `Confidentiality`, `ConfidentialSteps`, `ConfidentialUpdates`, `ConfidentialRuns`; `MappingRuns`,
  `MappingCounters`, `MappingExchanges`.
- What each request, file and payload comes to, in terms of the frames received, the entries of the configuration,
  the stored documents and the names of members, and not of the functions the handlers are made of: `Grants`,
  `ChangeReplies`, `ReadReplies`, `Fetches`, `Announcements`, `Loading`, `RestoredDocuments`, `Formats` for the
  wallet; `MappingReplies`, `MappingFiles` for the mappings. Together they say what every command answers to every
  payload, and which exception a refusal carries.
- The code in place, proved against the specification functions: the classes of `DocumentObjects`,
  `PortfolioObjects`, `WalletObjects`, `ServerObjects`, `ConsumerObjects`, `MappingObjects` and
  `MappingClients`, with their loops, shared document objects and working copies; the loops of
  `Configuration`.
- What is assumed of foreign code stands in `Environment.World` as function values, and only
  `World.Sound` (with `Encryption.Cipher.Sound`) is relied on: JSON text is an inverse pair on trees, no
  serialized tree reads `ERROR`, the cipher is inverse under the same key and never gives an empty text,
  the digest has 32 bytes. Regular expressions, certificates and keys are arbitrary functions. The uuid
  generator does not repeat itself (`Sources.IdSource`); initial vectors are arbitrary. Whatever the
  configuration, the platform, the expressions and the certificates, there are a serializer, a cipher and an id
  generator that meet all of this (`Assumptions.CanBeMet`), and then a good state exists for every configuration
  that loads (`Runs.FirstStart`).

Six results give the exact extent of what one might expect of the code without a condition:

- `secret_changed` in an update notification is true whenever a secret changed, but not only then. It is right if
  and only if the request restates every stored secret or sends another value for one
  (`UpdateFlags.SecretFlagIsRightIff`). Else no secret changed and the flag says one did:
  `UpdateFlags.UpdateWithoutSecretSectionIsFlagged` and `UpdateFlags.UnmarkedIsFlagged` are two families of that,
  and `Changes.OwnViewIsFlagged` is one whole request for every stored document.
- A mapping key does not determine its ids when they hold the separators; `MappingKeys.AloneIff` says
  exactly which triples share their key with another, and `MappingKeys.CollisionExample` shows two.
- An error reply does not give back the exception for an unsupported mapping command, nor the message bus
  ones; `MappingErrors.CamErrorRoundTrip` and `Errors.ErrorRoundTrip` say exactly which are kept.
- A loaded portfolio has agreeing indexes exactly when no accepted document is shadowed by a later one in
  one index only (`PortfolioLaws.LoadedIndexesAgree`; `PortfolioLaws.SharedNameDisagrees` shows two that are);
  everything the wallet itself saved meets this.
- A restore keeps the invariant exactly when no portfolio of the payload brings two documents with one name, or
  the payload is refused (`Runs.RestoreKeepsInvariantIff`). Every backup of a good wallet meets this;
  any two valid documents with one name make a payload that is accepted and breaks it
  (`Runs.NamesakesBreakInvariant`). What survives even that is `AnyRuns.LastingHolds`.
- A client that may not read a secret gets the same answers whatever it is: from every read
  (`Confidentiality.ReadsTellNothing`), and over whole runs (`ConfidentialRuns.RunsTellNothing`) as far as no update
  depends on it. An update of a document the client may not read is validated with the stored secret and announced
  with `secret_changed`; `ConfidentialUpdates.UpdateHidesIff` says exactly when its outcome is the same for two
  stored secrets, and `ConfidentialUpdates.RestatingUpdateShows` gives one for which it is not.

## Model

| member | source | states |
|---|---|---|
| Runs.InvariantHolds | lib/src/secw_security_wallet_server.cc:98-141 | over every run of requests, restarts and restores, refused or not, in which no restored portfolio has two documents with one name: both indexes of every portfolio agree, every stored document is valid, every configured portfolio resolves, and a restart would give back exactly the portfolios held |
| Runs.StartupEstablishesInvariant | lib/src/secw_security_wallet.cc:46-64 | a wallet starts in such a state if and only if no document of its file is shadowed in one index only |
| Runs.FirstStart | lib/src/secw_security_wallet.cc:46-64 | without a file it starts in such a state, with every configured portfolio empty |
| Runs.EventKeepsInvariant | lib/src/secw_security_wallet_server.cc:619-784 | one request, restart or restore keeps all of that |
| Runs.RestartKeepsInvariant | lib/src/secw_security_wallet.cc:66-157 | a restart drops no document; it only marks every document as holding private data |
| Runs.RestoreKeepsInvariantIff | lib/src/secw_security_wallet.cc:185-225 | in a good state a restore of any payload leaves a good state if and only if the payload is refused or none of its portfolios has two documents with one name |
| Runs.OwnBackupsAreLegal | lib/src/secw_security_wallet.cc:159-183 | a backup of any good wallet may be restored in every run, on either platform and under any version |
| Runs.NamesakesBreakInvariant | lib/src/secw_security_wallet.cc:185-225 | the payload made of any two valid documents with one name and two ids is accepted and leaves a state that is not good |
| Runs.StartAgreesIff | lib/src/secw_security_wallet.cc:116-157 | a start gives a good state exactly when the indexes loaded agree |
| Restores.ReloadedAgreesIff | lib/src/secw_portfolio.cc:207-236 | a portfolio saved and loaded has agreeing indexes if and only if no two documents of its id index share a name, whatever its name index holds |
| Restores.SavedListIsGoodIff | lib/src/secw_security_wallet.cc:221-241 | the inner save and reload of a restore never fails on valid documents, and gives good portfolios under that condition and no other |
| Restores.SharedNameDisagreesAfterReload | lib/src/secw_portfolio.cc:238-272 | two restored documents with one name leave indexes that disagree after the inner save and reload |
| Runs.CreateKeepsInvariant | lib/src/secw_security_wallet_server.cc:619-669 | a create keeps agreement, validity and durability, for an identifier not in use |
| Runs.UpdateKeepsInvariant | lib/src/secw_security_wallet_server.cc:719-784 | so does an update, with or without a new name |
| Runs.DeleteKeepsInvariant | lib/src/secw_security_wallet_server.cc:671-717 | so does a delete |
| AnyRuns.LastingHolds | lib/src/secw_security_wallet_server.cc:98-141 | over every run at all, with restores of any payload, ids drawn twice and foreign code that keeps no promise: the configurations stay those of the file, each resolves, and both indexes hold only valid documents under their own id and name |
| AnyRuns.StartIsLasting | lib/src/secw_security_wallet.cc:46-64 | every start that succeeds gives such a state, whatever the file holds |
| AnyRuns.InvariantIsLasting | lib/src/secw_security_wallet.cc:66-157 | so does every good state |
| Notifications.NotificationsTrackPublicView | lib/src/secw_security_wallet_server.cc:564-617 | over any run of requests and restarts, applying the published notifications to the initial public view of a portfolio gives its final public view |
| Notifications.UpdateTracked | lib/src/secw_security_wallet_server.cc:748-782 | the update notification, made of the request's document, shows what was stored |
| Notifications.CreateTracked | lib/src/secw_security_wallet_server.cc:663-668 | the create notification shows the stored copy under its new id |
| Notifications.DeleteTracked | lib/src/secw_security_wallet_server.cc:695-716 | the delete notification names the id that left the view |
| Changes.ReplyTellsChange | lib/src/secw_security_wallet_server.cc:98-141 | an error reply or a read leaves the whole state unchanged; a create gains one document under the id it answers, a delete loses the one of the id it names, an update replaces the one of the id in its document, each in both indexes and nowhere else, and the new list is saved and one notification published |
| Changes.ReadThenUpdateIsIdentity | lib/src/secw_security_wallet_server.cc:365-389 | sending back what was read without secrets, as received or as a client serializes it again, leaves every portfolio as it was, for all document types and any sender with a producer usage |
| Changes.OwnViewIsFlagged | lib/src/secw_security_wallet_server.cc:719-784 | the public view of any stored document, sent as an update, is accepted, leaves every portfolio as it was, and is announced with `secret_changed` true and `non_secret_changed` false |
| Grants.GrantedByEntries | lib/src/secw_configuration.cc:87-115 | the usages a client may consume, or produce, are those of the consumer entries, or the producer entries, of the portfolio whose pattern matches it |
| ChangeReplies.CreateReply | lib/src/secw_security_wallet_server.cc:619-669 | every create answers the new id unless it is barred, and the exception of the first thing that bars it: arguments, configuration, no producer usage, portfolio, text, document, validity, a usage not produced, a name in use |
| ChangeReplies.DeleteReply | lib/src/secw_security_wallet_server.cc:671-717 | every delete answers OK unless it is barred: as for a create, an unknown id, or a usage of the stored document the sender does not produce |
| ChangeReplies.UpdateReply | lib/src/secw_security_wallet_server.cc:719-784 | every update answers OK unless it is barred: as for a create, an unknown id, a usage in which request and stored document differ and that the sender does not produce, another type or id, a merge that is not valid, a new name in use |
| ChangeReplies.UpdateSucceedsIff | lib/src/secw_security_wallet_server.cc:719-784 | for a request that parses, the same as one condition on configuration, sender, stored document, merge and names, in both directions |
| Announcements.ChangeAnnounced | lib/src/secw_security_wallet_server.cc:564-617 | a change that succeeds leaves under the id it is about the document received, the merge, or none; its note has just the named members, among them the public views of that id before and after |
| UpdateFlags.FlagsTellChange | lib/src/secw_security_wallet_server.cc:598-617 | for every successful update `non_secret_changed` is true exactly when the stored public part changed; a secret changed exactly when the request sends another value for one; `secret_changed` is false exactly when the request restates every stored secret |
| UpdateFlags.SecretFlagIsRightIff | lib/src/secw_security_wallet_server.cc:598-617 | `secret_changed` agrees with what happened to the secrets if and only if the request restates all of them or sends another value for one; else none changed and it says one did |
| UpdateFlags.UpdateWithoutSecretSectionIsFlagged | lib/src/secw_document.cc:247-287 | one family in which it is wrong: every update without a secret section |
| UpdateFlags.UnmarkedIsFlagged | lib/src/secw_document.cc:247-287 | another: every update of a document stored without the mark of private data that sends no other secret |
| UpdateFlags.MergeNotification | lib/src/secw_security_wallet_server.cc:598-617 | old and new data of the notification are those of the stored document before and after the merge |
| Confinement.UsageConfined | lib/src/secw_security_wallet_server.cc:655-660 | whatever mix of requests is sent, the documents carrying a usage that no sender may produce are the same before and after |
| Confinement.RequestKeepsHolders | lib/src/secw_security_wallet_server.cc:755-769 | one request does not change who carries a usage its sender may not produce; an update may add or remove only usages the sender holds |
| ReadPaths.SecretReadsAgree | lib/src/secw_security_wallet_server.cc:328-363 | the unfiltered secret list is a reply that has a stored document exactly if it can be read by id, exactly if by name, and both give that document |
| ReadPaths.ListsPerUsage | lib/src/secw_security_wallet_server.cc:454-510 | the reply to the unfiltered request lists the union of what the replies per usage list; a usage the sender does not hold is refused |
| ReadPaths.PublicListShows | lib/src/secw_security_wallet_server.cc:512-560 | the public list shows exactly the stored documents, or those of the usage asked for |
| ReadPaths.OpenReadsAgree | lib/src/secw_security_wallet_server.cc:365-452 | both public reads of a stored document, by id and by name, give its public view |
| ReadPaths.ConsumerUsagesTold | lib/src/secw_security_wallet_server.cc:287-305 | a client is told of exactly the consumer usages for which it may then list secrets |
| ReadPaths.ProducerUsagesTold | lib/src/secw_security_wallet_server.cc:307-325 | and of exactly the producer usages with which its documents pass the check of a change |
| ReadPaths.PortfoliosTold | lib/src/secw_security_wallet_server.cc:273-285 | the portfolios listed are exactly those whose documents can be listed |
| ReadPaths.FetchGivesReadable | lib/src/secw_consumer_accessor.cc:103-120 | end to end: from a configured portfolio the client's fetch by ids returns, in order and with repetitions, exactly the documents that exist and share a consumer usage with it |
| ReadPaths.ErrorAnswer | lib/src/secw_client_accessor.cc:52-70 | the two errors the fetch filters arrive at the client as they were thrown |
| ReadReplies.SecretReply | lib/src/secw_security_wallet_server.cc:328-426 | every read with secret, by id or by name, gives the stored document exactly if some consumer entry of the portfolio matches the sender and grants a usage of the document, and else the exception of the first thing that bars it |
| ReadReplies.OpenReply | lib/src/secw_security_wallet_server.cc:365-452 | every read without secret gives the public view of the stored document, to anyone |
| ReadReplies.SecretListReply | lib/src/secw_security_wallet_server.cc:454-510 | the secret list has, in the order of their ids, exactly the documents with the usage asked for, which the sender must consume, or with any usage it consumes |
| ReadReplies.OpenListReply | lib/src/secw_security_wallet_server.cc:512-560 | the public list has, in the order of their ids, exactly the documents with the usage asked for, which must be one of the portfolio, or all |
| ReadReplies.PortfoliosReply | lib/src/secw_security_wallet_server.cc:273-285 | the portfolios told are the configured ones |
| ReadReplies.UsagesReply | lib/src/secw_security_wallet_server.cc:287-325 | the consumer, or producer, usages told are those the entries of that kind grant to the sender |
| ReadReplies.OtherReply | lib/src/secw_security_wallet_server.cc:98-141 | another command, an empty payload and an answer are met with an exception, another, and nothing |
| Fetches.FetchOneIs | lib/src/secw_consumer_accessor.cc:122-139 | a fetch gives the stored document, marked, unless the read is barred; else the client throws that exception |
| Fetches.FetchAllGoesOn | lib/src/secw_consumer_accessor.cc:103-120 | the fetch by ids goes on id by id: it adds what may be read, leaves out what does not exist or may not be read, and ends at an unknown portfolio |
| Fetches.MalformedAnswer | lib/src/secw_client_accessor.cc:52-70 | an error without data and a text that is no tree are protocol errors at the client |
| Confidentiality.ReadsTellNothing | lib/src/secw_security_wallet_server.cc:273-560 | in two states that differ only in secrets of documents of which the sender holds no consumer usage, every read with any parameters gives it the same result |
| ConfidentialSteps.CreateTellsNothing | lib/src/secw_security_wallet_server.cc:619-669 | a create by anybody is answered and announced the same in both, and leaves two such states |
| ConfidentialSteps.DeleteTellsNothing | lib/src/secw_security_wallet_server.cc:671-717 | so is a delete |
| ConfidentialUpdates.UpdateHidesIff | lib/src/secw_security_wallet_server.cc:719-784 | so is an update if and only if both merged documents are judged alike by the validation and, when they are stored, the request restates the secrets of both or of neither and a reader of the result finds the same in both |
| ConfidentialUpdates.ReadableUpdateHides | lib/src/secw_security_wallet_server.cc:742-769 | that condition holds for every document the client may read |
| ConfidentialUpdates.RestatingUpdateShows | lib/src/secw_security_wallet_server.cc:598-617 | it fails for an update that restates a stored secret where the other state holds another one |
| ConfidentialRuns.RunsTellNothing | lib/src/secw_security_wallet_server.cc:98-141 | over every run from two such good states, of requests by anybody, restarts and restores, with updates that meet the condition: all answers to the client and all notifications are the same, and the final states are again such states |
| Exchanges.CreateSucceedsIff | lib/src/secw_security_wallet_server.cc:619-669 | a serialized document is created if and only if the portfolio is configured, the sender holds every usage of the document and at least one, the document is valid and its name is free |
| Exchanges.CreateThenFetch | lib/src/secw_security_wallet_server.cc:619-669 | what a producer created is fetched by exactly the clients sharing a usage with it, with every field it was sent with |
| Exchanges.UpdateThenFetch | lib/src/secw_security_wallet_server.cc:719-784 | after an update clients fetch the stored document with the request merged in, by the usages it has now |
| Exchanges.DeleteThenFetch | lib/src/secw_security_wallet_server.cc:671-717 | after a delete nobody fetches the document and its name is free |
| DocumentLaws.LoadWithSecret | lib/src/secw_document.cc:137-142 | a document written with its secret reads back the same, marked as holding private data; omitted empty secrets come back empty |
| DocumentLaws.LoadWithoutSecret | lib/src/secw_document.cc:131-135 | written without its secret it reads back with its secrets erased |
| DocumentLaws.SrrRoundTrip | lib/src/secw_document.cc:144-208 | encrypted for a backup and read under the same key it reads back the same, whatever the vector |
| DocumentLaws.MergeIsFieldWise | lib/src/secw_document.cc:332-383 | a merge takes header and public part from the request and each secret field only if present |
| DocumentLaws.MergeSucceeds | lib/src/secw_document.cc:347-356 | a request merges into a stored document if and only if it parses on its own and names the same type and id |
| DocumentLaws.MergeOwnView | lib/src/secw_document.cc:363-376 | merging back a document's own view without secrets changes nothing |
| DocumentLaws.ValidIff | lib/src/secw_snmpv3.cc:74-96 | a document is valid exactly when only optional texts are empty (by security level), its certificate fits its key, and its secrets were received |
| DocumentLaws.ValidityKept | lib/src/secw_user_and_password.cc:56-64 | validity survives the mark of private data becoming true, which every load sets |
| DocumentLaws.ViewIsValidIff | lib/src/secw_internal_certificate.cc:59-78 | the view of a valid document without its secret is valid exactly for types without secrets |
| DocumentLaws.SecretEqualsIsEquality | lib/src/secw_document.cc:247-287 | comparing serialized secrets is comparing types, marks and secret fields |
| DocumentLaws.NonSecretEqualsIsEquality | lib/src/secw_document.cc:210-245 | comparing serialized public parts is comparing public parts |
| Formats.ReadPublicIs | lib/src/secw_snmpv3.cc:140-177 | the public part of each type is read exactly if its members are there, the three bytes of snmpv3 below 3, 2 and 2, and gives their values |
| Formats.ReadSecretIs | lib/src/secw_snmpv3.cc:118-138 | each secret is taken if present, which it must be as a text, and else kept |
| Formats.LoadNewIs | lib/src/secw_document.cc:332-383 | a new document is read exactly from a tree with a known type, id, header, public part and readable secrets, and has just the fields of that tree; which class of exception it is otherwise |
| Formats.CreateFromSrrIs | lib/src/secw_document.cc:160-208 | a document of a backup likewise, with its secrets in the clear or encrypted under a key that is not empty |
| Formats.ValidMeetsDemands | lib/src/secw_snmpv3.cc:74-96 | validity for each type, with security levels 1 and 2 by what they demand; an error names a field that is at fault |
| Formats.OpenView | lib/src/secw_document.cc:131-135 | the public view has six members and does not depend on any secret |
| Formats.SecretView | lib/src/secw_document.cc:137-142 | the view with secret adds the secret part only |
| Formats.BackupView | lib/src/secw_document.cc:144-158 | in a backup the secret part is one encrypted text, and the secrets show nowhere else |
| PortfolioLaws.AddKeepsAgreement | lib/src/secw_portfolio.cc:46-70 | adding under an unused id keeps the two indexes in agreement and every document valid |
| PortfolioLaws.UpdateKeepsAgreement | lib/src/secw_portfolio.cc:83-107 | so does an update, renaming or not |
| PortfolioLaws.LoadedIndexesAgree | lib/src/secw_portfolio.cc:207-236 | loading a list gives agreeing indexes if and only if no accepted document is shadowed in one index only |
| PortfolioLaws.SharedNameDisagrees | lib/src/secw_portfolio.cc:207-236 | two documents loaded under one name, with two ids, are indexed in disagreement |
| PortfolioLaws.SaveThenLoad | lib/src/secw_portfolio.cc:162-167 | an agreeing portfolio of valid documents, saved and loaded, loses nothing |
| PortfolioLaws.BackupThenRestore | lib/src/secw_portfolio.cc:238-272 | restored from a backup it keeps exactly the documents that may be restored on the platform |
| Loading.LoadPortfolioIs | lib/src/secw_portfolio.cc:207-236 | a portfolio of a file is read exactly if it has version 1, a name and a list; each index then holds, for each key, the last item of the list that parses to a valid document with it |
| Loading.LoadPortfolioFromSrrIs | lib/src/secw_portfolio.cc:238-272 | the same for a backup, where on another platform internal certificates do not count |
| WalletLaws.ReadOwnBackup | lib/src/secw_security_wallet.cc:159-183 | a backup read under its own passphrase gives all portfolios on its own platform, and all but the internal certificates on another |
| WalletLaws.RestoreOwnBackup | lib/src/secw_security_wallet.cc:185-225 | through the inner save and reload the restore gives those portfolios, and configured portfolios missing from them come back empty |
| WalletLaws.RestoreFailsEarly | lib/src/secw_security_wallet.cc:185-225 | once the portfolios are replaced, a restore can no longer fail |
| WalletLaws.MissingAdded | lib/src/secw_security_wallet.cc:138-152 | a reload removes nothing that was read and adds only empty portfolios, for configured names that had none |
| WalletLaws.LoadWritten | lib/src/secw_security_wallet.cc:227-241 | the saved list of a good wallet loads to the same portfolios |
| Loading.LoadDatabaseIs | lib/src/secw_security_wallet.cc:112-136 | a database is read exactly if it is missing, or has a version that is not 1, or has a list of portfolios each of which is read; and gives those |
| Loading.LoadConfigurationsIs | lib/src/secw_security_wallet.cc:66-105 | the configuration is accepted exactly if it is not empty and names no portfolio twice, and is then its entries by name |
| Loading.StartupIs | lib/src/secw_security_wallet.cc:46-157 | a wallet starts exactly from such files, with the portfolios of the file, an empty one for each configured name that is missing, and saved |
| Loading.ReadBackupIs | lib/src/secw_security_wallet.cc:185-218 | a payload is read exactly with version 1.0, a passphrase of at least 8 characters that its check decrypts to, a platform that decrypts, and portfolios that are read |
| RestoredDocuments.RestoreBringsBack | lib/src/secw_security_wallet.cc:185-225 | a restored backup of a good wallet has in both indexes of each portfolio exactly the documents backed up, marked: all of them on the platform it was made on, all but the internal certificates on any other |
| Base64.Base64SizeIsEncodedLength | lib/src/secw_openssl_wrapper.h:32-34 | for every bit size the header's arithmetic is the length of the padded base64 of that many bits (section 4 of RFC 4648) |
| Base64.RoundTrip | lib/src/secw_helpers.cc:71-87 | decoding undoes encoding for all bytes |
| Base64.DigitsOfTheStandard | lib/src/secw_openssl_wrapper.cc:75-100 | the digits are those of table 1 of RFC 4648 |
| Base64.EncodedGroups | lib/src/secw_openssl_wrapper.cc:75-100 | three bytes are four groups of six bits, and the end is padded, as section 4 of RFC 4648 demands |
| Encryption.DecryptUndoesEncrypt | lib/src/secw_helpers.cc:71-112 | decryption splits the text where encryption joined it and undoes it, for all data, passphrases and vectors |
| Formats.EncryptedText | lib/src/secw_helpers.cc:71-87 | an encrypted text is the vector, a colon and the blocks, in base64, under the digest of the passphrase |
| Formats.DecryptIs | lib/src/secw_helpers.cc:89-112 | a text decrypts exactly if it is empty or splits there into a vector of 16 bytes and some blocks |
| Errors.ErrorRoundTrip | lib/src/secw_exception.cc:43-95 | an error reply gives back the exception thrown if and only if it is not one of the message bus |
| Errors.ErrorMembers | lib/src/secw_exception.cc:110-135 | an exception is sent as the number of its class, its text and its field, by their names |
| Errors.ReadErrorIs | lib/src/secw_exception.cc:43-95 | an unknown or missing number is the general class; a class without its field cannot be built |
| Serialization.TextArrayRoundTrip | lib/src/secw_document.cc:290-297 | a set of tags or usages written as an array reads back as the same set |
| Serialization.AsTextsIs | lib/src/secw_document.cc:299-320 | a set of tags or usages is read exactly from a list of texts |
| Configuration.CollectUsages | lib/src/secw_configuration.cc:87-115 | the loop over clients collects exactly the usages of the entries whose pattern matches |
| Configuration.DifferenceBetween2UsagesIdSet | lib/src/secw_configuration.cc:170-189 | the two loops give the symmetric difference |
| Configuration.HasCommonUsageIds | lib/src/secw_helpers.cc:114-125 | the loop with its flag says whether two sets share an element |
| Configuration.FirstForbidden | lib/src/secw_security_wallet_server.cc:655-660 | the loop with its early throw finds a usage exactly if one is not allowed, and then the first in order |
| DocumentObjects.Document.Deserialize | lib/src/secw_document.cc:332-383 | the reader creates an object, or overwrites the given one in place and returns that one; its result is that of the specification even when parsing fails half way |
| DocumentObjects.Document.UpdateSnmpv3Public | lib/src/secw_snmpv3.cc:140-177 | the four public fields are assigned one by one, each after its range check; after a check that fails, the fields before it are overwritten and the others kept |
| DocumentObjects.Document.UpdatePrivate | lib/src/secw_snmpv3.cc:118-138 | each secret field is assigned if present and else kept; after a second one that cannot be read the first stays assigned |
| DocumentObjects.Document.FromSrr | lib/src/secw_document.cc:160-208 | reading a document of a backup gives a new object, or the exception of the first check that fails |
| PortfolioObjects.PortfolioObject.FreshId | lib/src/secw_portfolio.cc:54-58 | the loop ends after at most one draw more than there are documents, with an id that is not in use |
| PortfolioObjects.PortfolioObject.Add | lib/src/secw_portfolio.cc:46-70 | a clone is stored in both indexes under a fresh id, or nothing changes; the indexes keep sharing their objects |
| PortfolioObjects.PortfolioObject.Remove | lib/src/secw_portfolio.cc:72-81 | the object leaves both indexes, or nothing changes |
| PortfolioObjects.PortfolioObject.Update | lib/src/secw_portfolio.cc:83-107 | a clone replaces the object in both indexes and a former name is erased, or nothing changes |
| PortfolioObjects.PortfolioObject.GetDocument | lib/src/secw_portfolio.cc:110-117 | the caller gets a new object, not the stored one |
| PortfolioObjects.PortfolioObject.GetListDocuments | lib/src/secw_portfolio.cc:128-137 | the stored objects themselves, in the order of their ids |
| PortfolioObjects.PortfolioObject.LoadPortfolio | lib/src/secw_portfolio.cc:139-160 | the loader drops what does not parse or is not valid; both indexes then share their objects if no document is shadowed in one only |
| PortfolioObjects.PortfolioObject.LoadPortfolioFromSrr | lib/src/secw_portfolio.cc:169-191 | the same for a backup, without internal certificates on another platform |
| PortfolioObjects.PortfolioObject.SerializePortfolioSrr | lib/src/secw_portfolio.cc:193-205 | every document is written encrypted under a vector of its own |
| WalletObjects.SecurityWallet.Reload | lib/src/secw_security_wallet.cc:66-157 | configuration and portfolios are cleared and rebuilt from the two files, with missing portfolios added empty; a configuration file that cannot be read leaves the entries before the failure and no portfolio |
| WalletObjects.SecurityWallet.GetPortfolio | lib/src/secw_security_wallet.cc:263-271 | the first portfolio of the name, or the exception |
| WalletObjects.SecurityWallet.Start | lib/src/secw_security_wallet.cc:46-64 | a new wallet reloads and saves |
| WalletObjects.SecurityWallet.GetSrrSaveData | lib/src/secw_security_wallet.cc:159-183 | a short passphrase is refused; else the tree is a backup of the portfolios held |
| WalletObjects.SecurityWallet.RestoreSrrData | lib/src/secw_security_wallet.cc:185-225 | a payload that cannot be read leaves the object untouched; else it holds what the restore function gives, and both indexes share their objects exactly if the lists loaded agree |
| WalletObjects.SecurityWallet.UpdateAndSave | lib/src/secw_security_wallet_server.cc:779-780 | one portfolio object changes, the others keep their values, and the file holds the new list; or nothing changes |
| WalletObjects.SecurityWallet.SharedEverywhere | lib/src/secw_portfolio.cc:60-69 | a wallet marked as sharing has the same objects in both indexes of every portfolio, and so indexes that agree |
| ServerObjects.SecurityWalletServer.Boot | lib/src/secw_security_wallet.cc:46-64 | a server starts with the wallet of the start function, or not at all; its indexes share their objects if and only if the state is good |
| ServerObjects.MergeInto | lib/src/secw_security_wallet_server.cc:759-776 | usage check, in-place merge and validation of the working copy, in that order |
| ServerObjects.SecurityWalletServer.HandleCreate | lib/src/secw_security_wallet_server.cc:619-669 | the handler's effect on wallet, file and stream and its reply are those of the step function, with an unused id |
| ServerObjects.SecurityWalletServer.HandleDelete | lib/src/secw_security_wallet_server.cc:671-717 | likewise for a delete |
| ServerObjects.SecurityWalletServer.HandleUpdate | lib/src/secw_security_wallet_server.cc:719-784 | likewise for an update, though the working copy is overwritten before it is validated |
| ServerObjects.SecurityWalletServer.HandleGetDocumentWithSecret | lib/src/secw_security_wallet_server.cc:328-426 | the two reads with secret, by id and by name |
| ServerObjects.SecurityWalletServer.SerializeListDocuments | lib/src/secw_security_wallet_server.cc:786-822 | the loops over the stored objects write exactly the documents of the filter, in order |
| ServerObjects.SecurityWalletServer.HandleRequest | lib/src/secw_security_wallet_server.cc:98-141 | every request is one legal step of a run, so a good state stays good; indexes that share their objects go on sharing them |
| ServerObjects.SecurityWalletServer.HandleSave | lib/src/secw_security_wallet_server.cc:172-206 | the text of a backup of the wallet held, or a failure for a short passphrase |
| ServerObjects.SecurityWalletServer.HandleRestore | lib/src/secw_security_wallet_server.cc:208-244 | in any state a payload that is refused changes nothing, one that is accepted gives what the restore function gives, and one that is read but not loaded again leaves a wallet without portfolios; in a good state a restore is one step of a run, and the indexes share their objects afterwards if and only if no restored portfolio has two documents with one name |
| ConsumerObjects.ConsumerAccessor.GetListDocumentsWithPrivateData | lib/src/secw_consumer_accessor.cc:103-139 | the client's loop against a server object: it never throws for a configured portfolio that resolves and gives exactly the readable documents |
| MappingKeys.HashInjective | lib/src/cam_credential_asset_mapping_storage.cc:222-226 | with asset and service ids free of bars the key is injective, whatever the protocols |
| MappingKeys.CanonicalForm | lib/src/cam_credential_asset_mapping_storage.cc:222-226 | every triple, whatever its ids hold, has the key of exactly one separable triple |
| MappingKeys.CollideIff | lib/src/cam_credential_asset_mapping_storage.cc:222-226 | two triples share a key if and only if they have the same canonical form |
| MappingKeys.AloneIff | lib/src/cam_credential_asset_mapping_storage.cc:222-226 | a triple shares its key with no other if and only if its ids do not hold the separators in a place where they could be read otherwise |
| MappingKeys.CollisionExample | lib/src/cam_credential_asset_mapping_storage.cc:222-226 | two different triples with one key |
| MappingStorage.StoreRefinesMap | lib/src/cam_credential_asset_mapping_storage.cc:115-154 | reading, setting, removing and looking up are those of a map keyed by the canonical triple |
| MappingStorage.PlainIdsAreCanonical | lib/src/cam_credential_asset_mapping_storage.cc:222-226 | with ids free of bars that map is keyed by the triples themselves |
| MappingStorage.SaveThenLoadMappings | lib/src/cam_credential_asset_mapping_storage.cc:34-113 | loading what was saved rebuilds the same store, without any assumption on the ids |
| MappingStorage.LoadedIsKeyed | lib/src/cam_credential_asset_mapping_storage.cc:56-66 | whatever the file holds, every loaded mapping is under the key of its own non-empty ids |
| MappingFiles.LoadMappingsIs | lib/src/cam_credential_asset_mapping_storage.cc:34-86 | a file is loaded exactly if it is missing or has version 1 and mappings that can all be read; each key then holds the last mapping under it without an empty id |
| MappingFiles.StartMappingIs | lib/src/cam_credential_asset_mapping_storage.cc:34-86 | the server starts exactly from such a file, and saves it |
| MappingFiles.SavedIs | lib/src/cam_credential_asset_mapping_storage.cc:88-113 | the file has version 1 and the mappings in the order of their keys |
| Mappings.MappingRoundTrip | lib/src/cam_credential_asset_mapping.cc:39-70 | a mapping written and read back is the same, for any status byte and extended data |
| MappingFiles.ReadMappingIs | lib/src/cam_credential_asset_mapping.cc:50-70 | a mapping is read exactly from a tree with its seven members, and gives what they hold |
| MappingFiles.ReadPairsIs | lib/src/cam_credential_asset_mapping.cc:50-70 | extended data are read exactly from pairs, of which the first of a key counts |
| MappingErrors.CamErrorRoundTrip | lib/src/cam_exception.cc:32-71 | an error reply gives back the exception if and only if it is not for an unsupported command or of the message bus |
| MappingErrors.CamErrorMembers | lib/src/cam_exception.cc:90-113 | an exception is sent as the number of its class, its text and its fields, by their names |
| MappingRuns.CamInvariantHolds | lib/src/cam_credential_asset_mapping_server.cc:74-113 | in every reachable state the store is keyed and the file holds it |
| MappingRuns.RestartIsIdentity | lib/src/cam_credential_asset_mapping_storage.cc:34-86 | a restart gives back exactly the same store and file |
| MappingRuns.CamReplyTellsChange | lib/src/cam_credential_asset_mapping_server.cc:74-113 | an error reply or a read changes nothing; a change that succeeds touches exactly the key of the ids it names |
| MappingRuns.ChangeTouchesOneKey | lib/src/cam_credential_asset_mapping_server.cc:146-360 | so does every changing command, even when the mapping under that key has other ids |
| MappingRuns.StatusNeverOutlivesSettings | lib/src/cam_credential_asset_mapping_server.cc:202-360 | in every run a known status stored at the end was recorded at the start or by a create, an update of the mapping or of the status, and port, credential and status have been the same ever since |
| MappingRuns.RecordedAsReceived | lib/src/cam_credential_asset_mapping_server.cc:298-328 | what such a command leaves is the status it was sent, with the settings it was sent or, for a status update, those already stored |
| MappingExchanges.WriteThenRead | lib/src/cam_credential_asset_mapping_server.cc:146-360 | a create succeeds if and only if there is no mapping under its key, any update if and only if there is one; afterwards every client reads the mapping as sent or amended for ids with that key, and what it read before for all others |
| MappingExchanges.RemoveThenRead | lib/src/cam_credential_asset_mapping_server.cc:176-200 | a removal succeeds if and only if there is a mapping; afterwards ids with its key read nothing and all others what they did before |
| MappingReplies.CreateMappingReply | lib/src/cam_credential_asset_mapping_server.cc:146-174 | every create puts the mapping under its key, unless it cannot be read, its key is in use or one of its ids is empty; which exception it is then |
| MappingReplies.UpdateMappingReply | lib/src/cam_credential_asset_mapping_server.cc:202-230 | every full update likewise, unless its key is not in use or one of its ids is empty |
| MappingReplies.PartReply | lib/src/cam_credential_asset_mapping_server.cc:232-360 | every partial update leaves the stored mapping with one field of the one received, a new port or credential with an unknown status, and changes nothing else |
| MappingReplies.LeftByPart | lib/src/cam_credential_asset_mapping_server.cc:232-360 | that is what a client then reads back |
| MappingReplies.RemoveReply | lib/src/cam_credential_asset_mapping_server.cc:176-200 | every removal takes the key of the three ids away, unless it is not in use; two ids pass the check of the arguments and fail on the third |
| MappingReplies.GetReply | lib/src/cam_credential_asset_mapping_server.cc:118-144 | every read by ids gives the mapping under their key, or the exception that there is none |
| MappingReplies.QueryReply | lib/src/cam_credential_asset_mapping_server.cc:362-451 | a query answers exactly the mappings with that asset, that asset and service, that credential, or all, one for each key and in the order of the keys, and a client reads just those |
| MappingReplies.CountReply | lib/src/cam_credential_asset_mapping_server.cc:453-475 | a count is that of the keys whose mapping has the credential, modulo 2^32 |
| MappingReplies.OtherMappingReply | lib/src/cam_credential_asset_mapping_server.cc:74-113 | another command, an empty payload and an answer are met with an exception, another, and nothing |
| MappingExchanges.QueryArrives | lib/src/cam_credential_asset_mapping_server.cc:362-451 | a client that asks by asset, by asset and service, or by credential gets exactly the server's selection |
| MappingExchanges.SelectionIs | lib/src/cam_credential_asset_mapping_storage.cc:170-220 | a selection has exactly the mappings of its condition, one for each of their keys |
| MappingCounters.CountersAreUses | lib/src/cam_accessor.cc:247-264 | the client's loop has a counter exactly for each credential used, equal to the number of uses modulo 2^32 |
| MappingCounters.CountersSum | lib/src/cam_accessor.cc:247-264 | the counters sum to the number of mappings with a credential if and only if no credential is used 2^32 times or more |
| MappingCounters.CountOfStore | lib/src/cam_credential_asset_mapping_storage.cc:170-207 | counting in the list of all mappings is counting the server's selection |
| MappingClients.CountersAgree | lib/src/cam_accessor.cc:232-264 | end to end: for every non-empty credential the client's counter is the server's count, and exists exactly if some mapping uses the credential |
| MappingClients.CountersSumToStore | lib/src/cam_accessor.cc:247-264 | below 2^32 the counters sum to the number of stored mappings with a credential |
| MappingClients.ExistenceArrives | lib/src/cam_accessor.cc:162-173 | a client is told that a mapping exists exactly when the store has its key |
| MappingClients.Accessor.CountCredentialMappingsForCredential | lib/src/cam_accessor.cc:232-245 | the client's count for a credential, against a server object: the size of the server's selection modulo 2^32, and the store is left as it was |
| MappingClients.Accessor.IsMappingExistingAtServer | lib/src/cam_accessor.cc:162-173 | the client's question, against a server object: true exactly when the store has the key |
| MappingClients.Accessor.CountEach | lib/src/cam_accessor.cc:253-261 | the counting loop, with its 32-bit wrap |
| MappingClients.Accessor.GetAllCredentialCounter | lib/src/cam_accessor.cc:247-264 | the request for all mappings and the loop, against a server object |
| MappingObjects.Scan | lib/src/cam_credential_asset_mapping_storage.cc:156-220 | the scan behind the queries gives the mappings of a condition, each once, in the order of their keys |
| MappingObjects.CredentialAssetMappingStorage.SetMapping | lib/src/cam_credential_asset_mapping_storage.cc:127-135 | a mapping without one of its ids is refused and nothing changes |
| MappingObjects.CredentialAssetMappingStorage.Start | lib/src/cam_credential_asset_mapping_storage.cc:34-86 | load and save; the state reached is good whatever the file held |
| MappingObjects.CredentialAssetMappingServer.HandleUpdatePart | lib/src/cam_credential_asset_mapping_server.cc:232-360 | the four partial updates change one part; a new port or credential resets the status |
| MappingObjects.CredentialAssetMappingServer.HandleRequest | lib/src/cam_credential_asset_mapping_server.cc:74-113 | a request's effect and reply are those of the step function, and a good state stays good |

## Left out

- Sockets, the malamute broker, the message bus, agents and their start-up: a request is a sender and its frames.
- JSON text and the serialization library: trees and an assumed inverse pair of texts. Object members have distinct names, and reading an object where a list is expected gives no element.
- Number conversions of the library: a byte is read from a number in range and from nothing else, and a text from a text only (the library may turn a number into a text, which is an error here); a list of pairs read as a map keeps the first value of a repeated key.
- AES, SHA-256, random vectors, memory cleansing, certificate and key parsing, regular expressions: parameters with stated assumptions. Nothing is said of decryption under another key.
- The parsing of the configuration file, and `supported_types` in it, which the program reads and does not enforce: a configuration is given as parsed entries.
- File-system failures and `exit`: writes succeed, and a failure at start-up is an error value.
- The texts of exceptions thrown by libraries, and the number inside the message about an unsupported portfolio version: they reach clients, in error replies (lib/src/secw_document.cc:378-382) and in the status of a failed restore (lib/src/secw_security_wallet_server.cc:227-229), and are not modelled; the model has one fixed text in their place.
- The wording of messages: the model has the texts of the program, and no law is stated about them; laws speak of the class of an exception and of its fields.
- The feature map and the statuses around backup and restore: one feature, called directly.
- The five document classes are one class with a datatype for the fields of each type: dispatch by type is a match.
- Producer client, client subscriptions and callbacks, setters of documents: wrappers with little state.
- The mapping server's five query methods share one scan with a condition as its parameter. The query by credential and service, which no request reaches, is left out.
- Notifications.NotificationsTrackPublicView: runs without a restore, which replaces portfolios and publishes nothing.
- Confinement.UsageConfined: runs without a restore, for the same reason.
- ConfidentialRuns.RunsTellNothing: says nothing of an update that does not meet its exact condition, nor of the time a request takes.
- WalletObjects.SecurityWallet.Reload: when a portfolio of the database cannot be read, nothing is said of the list of portfolios, in which the library leaves what it had read.
