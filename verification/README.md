# RootGuard: verified model

A Dafny model of the parts of RootGuard where a mistake is hardest to see by reading: the Unbound
configuration language, the transactions over its files, the two update state machines, the guards of the
web application, and some address, inventory and acceptor logic. Code that changes things step by step is
modelled by methods with loops and by classes with fields; each is proved against a function or predicate
that says what it computes, and the laws are lemmas about those functions. `dafny verify dfyconfig.toml`
checks everything.

## What is modelled

- **Configuration language** (`Text`, `Seqs`, `Settings`, `Render`, `Parse`, `Extract`, `Groups`, `Import`).
  The settings record and its validators, the printer, the parser into clause blocks, the four extractors
  (forward zones, local zones, reverse policies, and the two fixed combinations), the pass over what they
  leave, the merges, and the report.
- **Laws of the importer** (`Clauses`, `LocalGroups`, `ImportLaws`, `Reports`, `Verdicts`, `Adopted`, `Effects`): claims
  are disjoint, no directive of a server block goes unreported, each verdict is the one of a literal table, the proposed
  expert text is determined line by line, the last readable line of a setting wins, opt-ins and domains are exact, what
  a mapped clause or group keeps of its lines, and importing again changes nothing.
- **Printer and importer** (`RenderedBlocks`, `RenderedExtract`, `RenderedGroups`, `RenderedLocals`,
  `RenderedSweep`, `RoundTrip`, `RenderedFacts`): the proof, layer by layer, that they are inverse to each other, the
  exact condition, and what the parser reads off a rendered record, key by key.
- **Expert text** (`AccessControl`, `Custom`): its normalisation, the lines it refuses, the conflicts with
  guided settings, and the prefix arithmetic of the access-control guard.
- **Activation** (`Apply`, `Legacy`, `Writes`): the three-file transaction with its gates, rollback and undo history, as
  a class whose fields are the files, and the reading of settings files of any age. What every command and file write
  answers is an input, so each statement is about every pattern of failures.
- **Atomic writes** (`AtomicFile`): stage all, then rename, with the state after every system call kept, so that
  a crash between any two is covered.
- **Updates** (`ServiceUpdate`, `PairUpdate`, `Exclusion`, `History`): the update of one service, the update of the
  control plane pair, and who may hold the update manager. Commands take their answers from an oracle, and a log holds
  every command with its answer; steps of different callers interleave freely and the process may crash between any
  two.
- **Web application** (`RateLimiter`, `SessionAuth`): the sliding-window limiter against a complete log of
  failures, and the account and recovery handlers with their two files, over every run of handlers and restarts.
- **Addresses, acceptors, archives** (`Addresses`, `ReverseDns`, `DigCommand`, `Manifest`, `Archive`): the CIDR
  enumeration, the exec gate against the query that Core builds, the two manifest comparisons, and the backup
  round trip.

## What the proofs show about the code

Where a property holds only under a condition, the condition is exact and stated as an equivalence.

- The import of a rendered record restores it if and only if the text fits 65536 bytes, no private domain
  names a forward zone, and no local zone has a reserved reverse name. The validators ask for none of the
  three; `UnboundRoundTrip.ClashIsLost` gives a valid record that is lost.
- A forward-zone clause is mapped without loss if and only if its `name` lines agree and its `forward-first` lines
  all say yes or all say no (`UnboundClauses.MappedWithoutLoss`). Otherwise the extractor keeps the last line of the
  key and drops the others without a finding, as in `UnboundClauses.FirstNameIsLost`; the comment at
  rootguard-core/internal/unbound/import.go:248-255 promises that what does not fit is left for expert adoption. The
  model follows the code.
- Of several clauses with one zone name the last one survives, although all are reported as guided
  (`UnboundImportLaws.SurvivingZones`).
- `normalizeCustom` is not idempotent: a text may keep a CR before a line end and lose it when stored again, and
  a text of exactly the limit without a final line end is stored one byte longer and refused from then on. The undo
  history inherits this: `UnboundApply.RestoresExactly` says which recorded states can be brought back, and
  `UnboundApply.FullTextCannotBeUndone` gives those that never can.
- The importer offers `domain-insecure` lines for the expert editor, which refuses every one of them
  (`UnboundCustom.OfferedLineRefused`).
- A settings file whose reverse-zone list is null is read back with the default policies, so the rendered file
  beside it then differs from the rendering of what is loaded (`UnboundApply.GenerationCoherence`).
- `WriteFile` can report a failure after its rename succeeded, when the directory cannot be synced. The
  callers take a reported failure for an unchanged target. `UnboundApply.FailureIsClean`,
  `SessionAuth.RecoveryMatches` and `SessionAuth.AccountMatches` say exactly when that matters.
- A change of the account name alone writes back the password copy that was verified under an earlier lock. It keeps
  the password if and only if the last password put in force between the two locks is that copy
  (`SessionAuth.RenameKeepsPassword`); otherwise it reverts a change that was reported as done, as in
  `SessionAuth.RenameRevertsRecovery`.
- A logout whose write was refused holds until the next restart (`SessionAuth.LogoutUntilRestart`); so does a
  revocation whose three writes were refused. A session ended by a reported account change or recovery never comes
  back (`SessionAuth.EndedSessionsStayEnded`).
- After a rollback of a service update the container's image is not compared with the old one; the health check
  is the only evidence. `ServiceUpdate` therefore promises the old selection and a passed check, not the image.
- In the reverse-policy extractor the comparison of the two counts decides nothing on its own
  (`UnboundGroups.AllNamesCounted`).

## Model

| member | source | states |
|---|---|---|
| UnboundSettings.Validate | rootguard-core/internal/unbound/settings.go:154-195 | Accepts exactly the records that meet every rule: number ranges, known mode and profile, and each list valid as below |
| UnboundSettings.ValidateForwardZones | rootguard-core/internal/unbound/settings.go:197-234 | Accepts exactly at most 32 zones with distinct canonical names, each with 1 to 8 distinct permitted servers, and at most 32 targets in all |
| UnboundSettings.ValidateServers | rootguard-core/internal/unbound/settings.go:218-231 | The inner loop over one zone: every server canonical and permitted, none listed twice |
| UnboundSettings.ValidatePrivateDomains | rootguard-core/internal/unbound/settings.go:236-256 | Accepts exactly a list within the limit of distinct canonical names of which none is already made private by a forward zone |
| UnboundSettings.ValidateReverseZones | rootguard-core/internal/unbound/settings.go:258-276 | Accepts exactly known networks, each at most once, each with a known mode |
| UnboundSettings.ReverseNamesApart | rootguard-core/internal/unbound/settings.go:278-290 | The reserved reverse names are pairwise distinct across all networks, so each belongs to one network only |
| UnboundSettings.NetworkOfName | rootguard-core/internal/unbound/import.go:618-623 | Looking a reserved name up gives back the network it was generated from |
| UnboundSettings.ZoneNameChars | rootguard-core/internal/unbound/settings.go:292-327 | A canonical name has label characters and dots only, ends in a dot, and never in a hyphen before it |
| UnboundSettings.ValidateLocalHost | rootguard-core/internal/unbound/settings.go:361-383 | One host after any valid hosts: accepted exactly when host name and PTR addresses clash with none of them |
| UnboundSettings.ValidateLocalHostAddress | rootguard-core/internal/unbound/settings.go:385-406 | One address: usable and of the wanted family, and not claimed before when the host asks for a PTR record |
| UnboundSettings.ValidateZoneHosts | rootguard-core/internal/unbound/settings.go:352-356 | All hosts of a zone after the hosts of the zones before it |
| UnboundSettings.ValidateLocalZones | rootguard-core/internal/unbound/settings.go:329-359 | Accepts exactly the inventories of distinct canonical zones with 1 to the permitted number of hosts each and in all, host names and PTR addresses unique over all zones |
| UnboundApply.Bounds | rootguard-core/internal/unbound/settings.go:154-187 | The interval of each number, one by one and with its ends, the two TTLs in order, and the names of the three profiles and modes: each checked alone on an otherwise default record |
| UnboundApply.Capacities | rootguard-core/internal/unbound/settings.go:24-41 | At most 32 forward zones of 1 to 8 servers and 32 targets, 32 private domains, 3 policies, 16 local zones of 1 to 128 hosts, 512 hosts in all |
| UnboundApply.DefaultsAreValid | rootguard-core/internal/unbound/settings.go:127-152 | The record that stands in for a missing file passes every rule of the validator |
| UnboundRender.Render | rootguard-core/internal/unbound/settings.go:475-573 | Nothing for an invalid record, otherwise exactly the lines of the record in the fixed order of sections; what the parser reads off them is stated key by key in UnboundRenderedFacts |
| UnboundRender.WriteHost | rootguard-core/internal/unbound/settings.go:540-557 | The A, AAAA and PTR lines of one host, each present exactly when the record asks for it |
| UnboundRender.WriteLocalZone | rootguard-core/internal/unbound/settings.go:537-558 | A static zone line followed by the lines of all its hosts |
| UnboundRender.WritePolicy | rootguard-core/internal/unbound/settings.go:531-536 | One line for every reverse name of the network, with the type of the mode |
| UnboundRender.WriteForwardZone | rootguard-core/internal/unbound/settings.go:559-571 | One clause with the name, the servers in order and forward-first |
| UnboundRenderedFacts.RenderedSettings | rootguard-core/internal/unbound/settings.go:482-516 | Read with the parser, the text of a valid record says each of the 19 single settings exactly once, with the value of the record's field: yes or no, the number, the sizes 32m/16m, 64m/32m or 128m/64m of the profile, the three switches of the mode, and no for both query logs |
| UnboundRenderedFacts.NeverLogsQueries | rootguard-core/internal/unbound/settings.go:495-496 | For every valid record log-queries and log-replies are each said once, as no |
| UnboundRenderedFacts.RenderedOptIns | rootguard-core/internal/unbound/settings.go:517-530 | domain-insecure names exactly the zones that allow unsigned answers; private-domain exactly the private domains and the zones that allow private addresses |
| UnboundRenderedFacts.RenderedHosts | rootguard-core/internal/unbound/settings.go:537-557 | Every local zone is served statically, with the A, AAAA and PTR data of each host |
| UnboundRenderedFacts.RenderedPolicies | rootguard-core/internal/unbound/settings.go:531-536 | Every reverse zone of a network with a policy is static under nxdomain and transparent otherwise |
| UnboundRenderedFacts.RenderedForwards | rootguard-core/internal/unbound/settings.go:559-571 | After the server clause one forward-zone clause per zone with its name, its servers in order and its fallback, and no other clause |
| UnboundRenderedFacts.RenderedKeys | rootguard-core/internal/unbound/settings.go:475-557 | The server clause has no directive of any other key |
| UnboundParse.ParseUnboundConf | rootguard-core/internal/unbound/import.go:913-951 | The loop over lines computes the clause blocks of the recursive definition, with line numbers and raw text |
| UnboundParse.ParseKeepsDirectives | rootguard-core/internal/unbound/import.go:913-951 | Conservation: the directives of all blocks, in order, are exactly the directive lines of the file with their line numbers; none is lost, moved or made up |
| UnboundParse.DirectivesStandWhereTheySay | rootguard-core/internal/unbound/import.go:913-951 | Each directive is what the line with its number says, with that line as its raw text; its block begins at the nearest clause header above it, or is the implicit server clause |
| UnboundRenderedBlocks.LineIsRead | rootguard-core/internal/unbound/import.go:921-951 | Blanks around key and value, the case of the key and a comment behind the value make no difference to the directive read |
| UnboundRenderedBlocks.HeaderIsRead | rootguard-core/internal/unbound/import.go:921-951 | A key with nothing but blanks or a comment behind its colon opens a clause of that name in lower case |
| UnboundRenderedBlocks.OtherLinesSayNothing | rootguard-core/internal/unbound/import.go:921-951 | A line without a colon before its comment says nothing |
| UnboundExtract.ExtractForwardZones | rootguard-core/internal/unbound/import.go:256-302 | The mapped zones are those of exactly the clauses that state nothing else, in file order, with one finding each; the set of mapped blocks is exact |
| UnboundExtract.ReadForwardZone | rootguard-core/internal/unbound/import.go:263-292 | One clause: accepted exactly when every directive is understood and name and servers are valid |
| UnboundLocalGroups.ClauseIsZone | rootguard-core/internal/unbound/import.go:256-302 | A clause that maps has a valid name, at least one server, and valid servers only |
| UnboundClauses.DraftTakes | rootguard-core/internal/unbound/import.go:263-276 | A clause gives all its servers in order, and of its other lines the last of each key; any other key spoils it |
| UnboundClauses.MappedWithoutLoss | rootguard-core/internal/unbound/import.go:256-302 | A mapped clause states every one of its lines if and only if all its names agree and its forward-first lines all say yes or all say no |
| UnboundClauses.FirstNameIsLost | rootguard-core/internal/unbound/import.go:256-302 | A concrete clause with two names is mapped under the second, and the first is dropped without a finding |
| UnboundExtract.BuildLocalZoneCandidate | rootguard-core/internal/unbound/import.go:420-500 | A group gives a zone exactly when every line reads as data of that zone without contradiction; then it consumes every line of the group and no other |
| UnboundExtract.ReadGroup | rootguard-core/internal/unbound/import.go:377-394 | A group reaches to the next directive that is not local data; it is taken as a whole or not at all |
| UnboundExtract.ExtractLocalZonesOfBlock | rootguard-core/internal/unbound/import.go:371-400 | The zones of one block in order; a line is consumed exactly when it lies in a group that maps |
| UnboundExtract.ExtractLocalZones | rootguard-core/internal/unbound/import.go:364-403 | The zones of all server blocks in file order, with one finding for each group and the exact set of consumed places |
| UnboundLocalGroups.GroupIsZone | rootguard-core/internal/unbound/import.go:364-500 | Conservation for a group that maps: the zone has a valid unreserved name and each host once, each of its addresses and PTR flags comes from a line of the group and is valid, and every line of the group is one of the zone's records |
| UnboundGroups.CollectHits | rootguard-core/internal/unbound/import.go:618-646 | The nested map holds, per network and reserved name, every local-zone line of that name in file order, and nothing else |
| UnboundGroups.AddHit | rootguard-core/internal/unbound/import.go:630-644 | One more directive keeps the nested map complete |
| UnboundGroups.MatchNetwork | rootguard-core/internal/unbound/import.go:648-680 | A network has a policy exactly when each of its names occurs once and all have one supported type; the lines matched are all lines of its names |
| UnboundGroups.AllNamesCounted | rootguard-core/internal/unbound/import.go:649-661 | When every name of the network occurs the number of names agrees: the count test that comes first decides nothing on its own |
| UnboundGroups.ExtractReverseZonePolicies | rootguard-core/internal/unbound/import.go:610-689 | All networks: the map of policies, the findings for their lines and the set of consumed places are exact |
| UnboundGroups.ExtractNetworkMode | rootguard-core/internal/unbound/import.go:696-736 | A mode exactly when the three switches occur once each and state a mode; then exactly those three lines are consumed and reported |
| UnboundGroups.ExtractResourceProfile | rootguard-core/internal/unbound/import.go:742-781 | A profile exactly when both sizes occur once each and are a preset pair; then exactly those two lines are consumed and reported |
| UnboundImport.MergeZonesByName | rootguard-core/internal/unbound/import.go:570-587 | Replaces the first zone of the same name in place, appends the others in order |
| UnboundImport.MergePrivateDomains | rootguard-core/internal/unbound/import.go:539-563 | Appends new domains in order, skips those present or claimed by a zone that allows private addresses |
| UnboundImport.ClassifyZoneScoped | rootguard-core/internal/unbound/import.go:791-816 | A scoped directive sets the opt-in of the zones it names, or is collected, or is adopted as expert text, depending on which zones exist |
| UnboundImport.SweepServerBlock | rootguard-core/internal/unbound/import.go:185-205 | The pass over one server block skips exactly the consumed places and folds every other directive |
| UnboundImport.SweepAll | rootguard-core/internal/unbound/import.go:157-206 | The pass over all blocks: mapped, server, blocked and expert-adopted clauses; what an adopted clause puts into the text is stated by UnboundAdopted.ClauseAdopted |
| UnboundImport.ApplyPolicies | rootguard-core/internal/unbound/import.go:216-230 | Only the policies of networks the settings already list change |
| UnboundImport.MergeAll | rootguard-core/internal/unbound/import.go:207-236 | The tail of the import folds zones, local zones, domains, policies, mode and profile into the candidate |
| UnboundImport.ImportUnboundConf | rootguard-core/internal/unbound/import.go:115-246 | The whole import equals its definition: refused beyond 65536 bytes, otherwise settings, report and adopted text; each of the three is stated independently in UnboundEffects, UnboundVerdicts and UnboundAdopted |
| UnboundVerdicts.ReportedVerdict | rootguard-core/internal/unbound/import.go:791-905 | Every directive of a server block that no extractor took is reported with its verdict: guided, fixed base, closed or expert, as a table of literal keys and values says, fixed values against 10000000 and yes included |
| UnboundVerdicts.ReportedClause | rootguard-core/internal/unbound/import.go:56-65 | Every clause that is neither a server block nor taken over is reported: closed for remote-control, python, dynlib and dnstap, offered to the expert otherwise |
| UnboundVerdicts.BlockedKeys | rootguard-core/internal/unbound/custom.go:340-390 | The table of refused directives holds exactly the literal keys of these families |
| UnboundAdopted.AdoptedExactly | rootguard-core/internal/unbound/import.go:155-245 | For every import the proposed expert text is the text there was, trimmed, an empty line, and then exactly the rows meant for the expert, each once and in file order: all rows of open clauses and the server directives left to the expert |
| UnboundAdopted.ClauseAdopted | rootguard-core/internal/unbound/import.go:170-183 | A clause that is unmapped, no server block and none of the four closed ones stands in the proposed text as its header and, on the next lines in order, every one of its directives, indented |
| UnboundAdopted.ClosedClauseAddsNothing | rootguard-core/internal/unbound/import.go:161-169 | A remote-control, python, dynlib or dnstap clause leaves no line in the proposed text |
| UnboundAdopted.OnlyExpertLines | rootguard-core/internal/unbound/import.go:185-205 | A server directive is among the proposed lines if and only if no extractor took it and its verdict is expert |
| UnboundEffects.LastLineWins | rootguard-core/internal/unbound/import.go:818-905 | For every file, base and single setting: the last line that states it with a readable value decides it, and without such a line it is what it was |
| UnboundEffects.ZonesAfterImport | rootguard-core/internal/unbound/import.go:791-816 | The forward zones after an import: those of the file, with an opt-in exactly when some line of a server block states it for that name, the last of each name, and the old ones the file does not name |
| UnboundEffects.DomainsAfterImport | rootguard-core/internal/unbound/import.go:539-563 | The private domains after an import: the old ones in front, and exactly the names stated by private-domain lines that are no opt-in of a zone and not claimed by one |
| UnboundEffects.GroupsAfterImport | rootguard-core/internal/unbound/import.go:696-781 | Mode and profile change only when the file states one of the literal combinations with each key once; otherwise they are what they were |
| UnboundEffects.PoliciesAfterImport | rootguard-core/internal/unbound/import.go:213-230 | The listed networks stay in order; a mode changes only when every reverse zone of the network has one line and all have one type |
| UnboundImportLaws.ConsumedOnce | rootguard-core/internal/unbound/import.go:132-155 | For every file the extractors claim pairwise disjoint places |
| UnboundImportLaws.UnconsumedExact | rootguard-core/internal/unbound/import.go:185-205 | The places the pass visits are exactly the unconsumed ones, each once, in order |
| UnboundImportLaws.ReportIsExact | rootguard-core/internal/unbound/import.go:115-246 | The report is exactly what the extractors report followed by what each block contributes, in file order, and the adopted text exactly the raw expert lines; both whatever settings are imported into |
| UnboundImportLaws.BlockReports | rootguard-core/internal/unbound/import.go:185-205 | An unconsumed directive of a server block is in what its block reports, and its raw line in what is adopted when it is expert |
| UnboundImportLaws.NoServerDirectiveDropped | rootguard-core/internal/unbound/import.go:157-206 | No directive is silently dropped: an unconsumed directive of a server block has its finding in the result of every import, and its raw line in the adopted text when it is expert |
| UnboundReports.ConsumedIsReported | rootguard-core/internal/unbound/import.go:115-155 | Whatever line an extractor consumes, the report holds a guided finding for that line and key, or for the local-zone line at the head of its group |
| UnboundReports.EveryDirectiveReported | rootguard-core/internal/unbound/import.go:115-246 | Every directive of every server block, in every import, has a finding of its own or is covered by a guided one |
| UnboundReports.MappedIsReported | rootguard-core/internal/unbound/import.go:256-302 | Every clause that is taken over is reported under its header line, with the name of its zone |
| UnboundImportLaws.MergeIdempotent | rootguard-core/internal/unbound/import.go:570-587 | Merging the same zones a second time changes nothing, with duplicates on either side |
| UnboundImportLaws.MergeSurvivors | rootguard-core/internal/unbound/import.go:570-587 | A merge holds exactly the last incoming item of each name, and the old items whose name does not come in or that stand behind another of their name |
| UnboundImportLaws.SurvivingZones | rootguard-core/internal/unbound/import.go:207-212 | Of several clauses or groups with one name the result keeps exactly the last; the others are replaced after they were reported as guided |
| UnboundImportLaws.SweptNames | rootguard-core/internal/unbound/import.go:157-206 | The pass over the blocks changes neither name nor servers nor order of the mapped zones |
| UnboundImportLaws.MergeDomainsAbsorbs | rootguard-core/internal/unbound/import.go:539-563 | Domains already merged or claimed change nothing when merged again |
| UnboundImportLaws.PoliciesIdempotent | rootguard-core/internal/unbound/import.go:216-230 | Applying the same policies twice is applying them once |
| UnboundImportLaws.ImportIdempotent | rootguard-core/internal/unbound/import.go:115-246 | For every file and every base: importing the file into the settings it produced yields the same settings |
| UnboundRenderedBlocks.BlocksOfRendered | rootguard-core/internal/unbound/settings.go:475-573 | The text of every valid record whose address literals are plain parses into one server block with exactly the directives of the record, and one block per forward zone |
| UnboundRenderedBlocks.CommentCutsLiteral | rootguard-core/internal/unbound/import.go:913-951 | A server address with a comment sign in its IPv6 zone is never read back: the line ends there |
| UnboundRenderedExtract.DraftOfForward | rootguard-core/internal/unbound/import.go:256-302 | A rendered forward clause reads back as its zone without the two opt-ins |
| UnboundRenderedExtract.ZonesOfStated | rootguard-core/internal/unbound/import.go:256-302 | From a rendered record the extractor maps all its forward zones and no other block |
| UnboundRenderedGroups.ModeOfStated | rootguard-core/internal/unbound/import.go:696-736 | The network mode of a rendered record is read back |
| UnboundRenderedGroups.ProfileOfStated | rootguard-core/internal/unbound/import.go:742-781 | The resource profile of a rendered record is read back |
| UnboundRenderedGroups.PolicyOfStated | rootguard-core/internal/unbound/import.go:610-689 | Each network gets back its policy, and no policy when the record has none for it |
| UnboundRenderedGroups.ParseZoneValue | rootguard-core/internal/unbound/import.go:505-519 | A quoted name and a type read back as that name and type |
| UnboundRenderedLocals.HostInventory | rootguard-core/internal/unbound/import.go:420-500 | The rendered lines of a host add exactly that host to the inventory |
| UnboundRenderedLocals.BuildsZone | rootguard-core/internal/unbound/import.go:420-500 | The rendered lines of a zone build exactly that zone, hosts in order |
| UnboundRenderedLocals.AllZones | rootguard-core/internal/unbound/import.go:364-403 | Behind lines without groups the rendered zones are found in order, and every one of their lines is consumed |
| UnboundRenderedSweep.SweepIsFolded | rootguard-core/internal/unbound/import.go:185-205 | The pass over directives of which exactly the claimed ones are consumed is a fold over the others, and adopts no text |
| UnboundRenderedSweep.HeadFold | rootguard-core/internal/unbound/import.go:818-905 | Folding the rendered single settings sets every one of them to the value of the record, from any start |
| UnboundRenderedSweep.ScopedFold | rootguard-core/internal/unbound/import.go:791-816 | Folding the rendered scoped lines restores both opt-ins of every zone and collects exactly the private domains |
| UnboundRoundTrip.StatedClaims | rootguard-core/internal/unbound/import.go:132-155 | In a rendered record the extractors consume exactly the lines of their own keys |
| UnboundRoundTrip.ImportOfRendered | rootguard-core/internal/unbound/import.go:115-246 | Importing a rendered record into any settings gives the merge of the two, and adopts no text |
| UnboundRoundTrip.RoundTrip | rootguard-core/internal/unbound/settings.go:475-573 | Printer and importer are inverse: over a base with empty lists and the same networks, importing the rendered text gives back the record and adopts nothing if and only if the text fits 65536 bytes, no private domain names a forward zone, and no local zone has a reserved reverse name |
| UnboundRoundTrip.ClashIsLost | rootguard-core/internal/unbound/import.go:791-816 | The condition on names is needed: a concrete valid record that the round trip does not give back |
| UnboundAccessControl.RangeCheckExact | rootguard-core/internal/unbound/custom.go:249-284 | For every prefix of either family, base masked or not: it lies within one listed range if and only if every address of it is in the union of the eight |
| UnboundAccessControl.PrivateIs | rootguard-core/internal/unbound/custom.go:249-258 | The eight listed ranges as intervals of numbers, in both families |
| UnboundAccessControl.AfterBlock | rootguard-core/internal/unbound/custom.go:269-284 | A prefix that starts in a listed range and is not within it also holds the address right after that range |
| UnboundAccessControl.WithinCovers | rootguard-core/internal/unbound/custom.go:269-284 | Every address of a prefix within a listed range is in that range |
| UnboundAccessControl.AccessControlGrantsNonPrivateAccess | rootguard-core/internal/unbound/custom.go:269-295 | Refuses an allow rule exactly when its range does not parse or holds an address outside private space |
| UnboundCustom.NormalizeCustom | rootguard-core/internal/unbound/custom.go:177-242 | Accepts exactly the texts within the limit without a NUL or a refused line, and returns them with line ends unified and one final line end |
| UnboundCustom.CleanedTwice | rootguard-core/internal/unbound/custom.go:184-188 | Cleaning is idempotent exactly on texts that keep no carriage return before a line end |
| UnboundCustom.NormalizeAgain | rootguard-core/internal/unbound/custom.go:177-242 | An accepted text is accepted again unchanged if and only if no CR LF is left in it and it is within the limit |
| UnboundCustom.FullTextRefusedLater | rootguard-core/internal/unbound/custom.go:177-192 | Every text of exactly 65536 bytes without a final line end is accepted once, and what is stored is refused from then on |
| UnboundCustom.CarriageReturnKept | rootguard-core/internal/unbound/custom.go:177-192 | A concrete text that changes when it is stored a second time |
| UnboundCustom.OfferedLineRefused | rootguard-core/internal/unbound/custom.go:189-240 | A line the importer offers to the expert editor is refused there if and only if it is domain-insecure or an access-control that opens to non-private addresses |
| UnboundCustom.ContainsDirective | rootguard-core/internal/unbound/custom.go:168-175 | Found exactly when some line has that directive |
| UnboundCustom.ContainsZoneDirective | rootguard-core/internal/unbound/custom.go:159-166 | Found exactly when some local-zone line names the zone |
| UnboundCustom.ReverseZoneClash | rootguard-core/internal/unbound/custom.go:144-150 | A network clashes exactly when the text names one of its reverse zones |
| UnboundCustom.ValidateGuidedConflicts | rootguard-core/internal/unbound/custom.go:133-157 | Accepts exactly when the text names neither a guided zone nor a reserved reverse zone, nor a directive that is guided |
| UnboundCustom.RefusedExactly | rootguard-core/internal/unbound/custom.go:189-240 | A line is refused exactly for a literal key of the closed, guided or trust families, for domain-insecure, for harden-dnssec-stripped other than yes, or for an allow rule that reaches outside private space |
| UnboundCustom.NothingStatedTwice | rootguard-core/internal/unbound/custom.go:133-150 | Text accepted beside forward zones opens no forward-zone clause when it is parsed, and text accepted beside private domains states none, in whatever clause |
| UnboundApply.WaitReady | rootguard-core/internal/unbound/settings.go:964-991 | Succeeds exactly when one of 40 rounds answers both questions before the caller gives up |
| UnboundApply.PruneHistory | rootguard-core/internal/unbound/lifecycle.go:347-361 | Keeps exactly the newest 20 on success; on a failure it has removed only older ones |
| UnboundApply.RecordSnapshot | rootguard-core/internal/unbound/lifecycle.go:321-345 | Puts the state in front unless the newest entry already is that state, keeps the newest 19 behind it in order |
| UnboundApply.FailureIsClean | rootguard-core/internal/unbound/settings.go:843-935 | An attempt that fails leaves all three files as they were if and only if the failed write left its target alone and every write made was taken back |
| UnboundApply.SettledIsClean | rootguard-core/internal/unbound/settings.go:993-1041 | The sufficient half for generations that share a file or remove the expert file |
| UnboundApply.UnsyncedRenameMixesGenerations | rootguard-core/internal/atomicfile/atomicfile.go:50-66 | A rename whose directory sync fails leaves a new file beside two old ones: the all-or-nothing rule needs its assumption |
| UnboundApply.Manager.LoadSettings | rootguard-core/internal/unbound/settings.go:643-661 | For files that an apply wrote: the defaults without a file, default policies for a null list, an error for an invalid record |
| UnboundLegacy.Load | rootguard-core/internal/unbound/settings.go:643-708 | For files of any age: a newer schema and an invalid record are refused, absent fields and empty values are filled in |
| UnboundLegacy.WrittenIsLoaded | rootguard-core/internal/unbound/settings.go:643-708 | What an apply wrote is read back as it was, up to a null reverse-zone list: for no valid record does another default apply |
| UnboundLegacy.StatedIsKept | rootguard-core/internal/unbound/settings.go:670-708 | A file with all late fields is read as it stands if and only if its list is not null and no value is empty |
| UnboundApply.Manager.LoadActiveConfig | rootguard-core/internal/unbound/settings.go:1011-1020 | The stored text, or the rendering when there is none |
| UnboundApply.Manager.RestoreFiles | rootguard-core/internal/unbound/settings.go:993-1041 | What each file holds after a restoration of which any write may fail |
| UnboundApply.Manager.RollbackFailedApply | rootguard-core/internal/unbound/settings.go:907-935 | Files as restored, and which files the daemon then serves |
| UnboundApply.Manager.RecordCurrent | rootguard-core/internal/unbound/settings.go:806-820 | The state before the change is the newest history entry when it is recorded; that the entry stands for exactly the three files is promised by the callers |
| UnboundApply.Manager.Activate | rootguard-core/internal/unbound/settings.go:843-886 | Success means all three files are the new generation and the daemon started from it; the stage of a failure decides what is left |
| UnboundApply.Manager.Prepare | rootguard-core/internal/unbound/settings.go:785-804 | Refuses before any file is touched exactly when a gate fails; otherwise gives the whole new generation |
| UnboundApply.Manager.ApplyStateLocked | rootguard-core/internal/unbound/settings.go:784-900 | The three-file transaction. Success: rendered record, settings and normalised text are stored, the candidate was checked, the stored files were checked and the daemon answered on them; one of the two newest history entries stands for exactly the three files from before when they belonged together, and the newest for the new ones when it could be written. Failure: what the stage left, which is the old state when no rename went unreported and every undo succeeds. And it does succeed when record and text are acceptable and nothing outside fails |
| UnboundApply.Manager.Apply | rootguard-core/internal/unbound/settings.go:774-782 | A guided apply is such a transaction over the expert text there was; the former files are remembered; after success the files belong together exactly when the record has no null policy list |
| UnboundApply.Manager.ApplyCustom | rootguard-core/internal/unbound/custom.go:87-102 | An expert apply keeps the loaded settings, is such a transaction, remembers the former files, and always leaves files that belong together |
| UnboundApply.Manager.ApplyBundle | rootguard-core/internal/unbound/bundle.go:115-123 | Settings and expert text in one transaction that remembers the former files |
| UnboundApply.Manager.Restore | rootguard-core/internal/unbound/lifecycle.go:201-222 | Succeeds exactly when every step does; an entry whose parts belong together comes back in all three files exactly when it is reversible and every step succeeds; the state before the restoration is remembered; an unknown entry changes nothing |
| UnboundApply.Manager.Run | rootguard-core/internal/unbound/settings.go:784-900 | Over every sequence of the four calls with arbitrary command and write failures: as long as no failed call has left a mixture of files, after each call the three files belong together exactly when the stored reverse-zone list is not null |
| UnboundApply.GenerationCoherence | rootguard-core/internal/unbound/settings.go:670-708 | A new generation is coherent if and only if its policy list is not null: a null list is read back as the default policies |
| UnboundApply.CurrentIsConsistent | rootguard-core/internal/unbound/settings.go:806-820 | The entry recorded of a coherent state has parts that belong together, and stands for exactly the three files |
| UnboundApply.RestoresExactly | rootguard-core/internal/unbound/lifecycle.go:201-222 | Applying a recorded state again passes the gates and gives its three files if and only if its list is not null, its text normalises to itself, and the environment permits it |
| UnboundApply.StoredTextReversible | rootguard-core/internal/unbound/custom.go:177-242 | A stored expert text normalises to itself if and only if no CR LF is left in it and it is within the limit |
| UnboundApply.FullTextCannotBeUndone | rootguard-core/internal/unbound/custom.go:177-192 | An undo that can never succeed: to a state that stored a text of exactly the limit without a final line end |
| AtomicFile.Disk.WriteFiles | rootguard-core/internal/atomicfile/atomicfile.go:133-182 | For every pattern of failures and after every system call: the targets are the old ones with a prefix of the files replaced; success exactly when every call succeeds, and then every target holds its data; a file that cannot be staged leaves all targets alone; no temporary file is left when removals succeed |
| AtomicFile.Disk.StageFile | rootguard-core/internal/atomicfile/atomicfile.go:194-208 | One filled temporary file or none, targets untouched |
| AtomicFile.Disk.StageAll | rootguard-core/internal/atomicfile/atomicfile.go:145-159 | Every file staged, or all temporary files removed; targets untouched in every intermediate state |
| AtomicFile.Disk.RenameAll | rootguard-core/internal/atomicfile/atomicfile.go:160-175 | The renames replace a prefix of the files in order |
| AtomicFile.Disk.CleanUp | rootguard-core/internal/atomicfile/atomicfile.go:140-144 | Removes the temporary files of the batch and touches no target |
| AtomicFile.PrefixState | rootguard-core/internal/atomicfile/atomicfile.go:133-182 | With distinct paths every state has each target whole: the first k new, all others as before |
| AtomicFile.NeverAhead | rootguard-core/internal/updater/manager.go:1109-1122 | A later file is never ahead of an earlier one, so updates.yaml is never newer than state.json |
| ServiceUpdate.Updater.Update | rootguard-core/internal/updater/manager.go:422-554 | From the log: first every path copied out and the manifest written, then the target pulled and identified. Success: the container runs the ID read for the very image that was attested, selected and stored before any container was touched, started from that selection, looked at and healthy, and every migrated volume has its owner. Rolled back: the old image selected and stored, the container recreated from it, every path copied back after the manifest was verified, restarted, and then healthy, all owners restored. Failed and rolled-back outcomes need a cause: a call that went wrong, nothing running, a bad migration, or a start on another image |
| ServiceUpdate.Updater.PrepareSwap | rootguard-core/internal/updater/manager.go:458-519 | Everything before the container is replaced is undone on failure, and fails only for a cause; on success every migrated volume has the owner its last migration asks for and the others keep theirs |
| ServiceUpdate.Updater.FindCandidate | rootguard-core/internal/updater/manager.go:427-473 | Backup first, then the pulled image and the ID read for it; nothing else changes, and it fails only for a cause |
| ServiceUpdate.Updater.Backup | rootguard-core/internal/updater/manager.go:733-747 | Every path copied out in order, then the manifest written; stops at the first failure |
| ServiceUpdate.Updater.Replace | rootguard-core/internal/updater/manager.go:478-554 | The part for a new candidate: selected after attestation, started from that selection, or taken back |
| ServiceUpdate.Updater.StartAndVerify | rootguard-core/internal/updater/manager.go:520-526 | Started from the stored selection, on the candidate, and healthy; otherwise something went wrong or another image came up |
| ServiceUpdate.Updater.RestoreData | rootguard-core/internal/updater/manager.go:611-619 | The manifest verified first, then every path copied back in order |
| ServiceUpdate.Updater.StartAgain | rootguard-core/internal/updater/manager.go:605-624 | Directly after the stored selection: the container recreated, the data put back, restarted, and then healthy, call by call |
| ServiceUpdate.Updater.Swap | rootguard-core/internal/updater/manager.go:520-554 | Success, rolled back or rollback failed, with what each guarantees, what the log shows of it, and what its cause can be |
| ServiceUpdate.Updater.Rollback | rootguard-core/internal/updater/manager.go:575-624 | Reports success only when, after the stored old selection, the container was recreated, every path copied back, the container restarted, and then the service answered, with owners undone; fails only for a cause |
| ServiceUpdate.Updater.SelectImage | rootguard-core/internal/updater/manager.go:824-853 | Selected and stored, or the selection as before including the absence of the key |
| ServiceUpdate.Updater.Persist | rootguard-core/internal/updater/manager.go:1070-1122 | Success stores both files; after a failure updates.yaml is new only if state.json is |
| ServiceUpdate.Updater.ChangeVolumeOwnership | rootguard-core/internal/updater/manager.go:707-731 | Changes one volume; a failed command may have changed it |
| ServiceUpdate.Updater.MigrateVolumeOwnership | rootguard-core/internal/updater/manager.go:626-654 | The returned records undo the migration exactly, also when a volume occurs twice |
| ServiceUpdate.Updater.MigrateVolume | rootguard-core/internal/updater/manager.go:626-654 | However one migration ends, undoing the records leads to the same owners as before it |
| ServiceUpdate.Updater.RestoreVolumeOwnership | rootguard-core/internal/updater/manager.go:656-671 | Undoes the records in reverse order |
| ServiceUpdate.UndoneStep | rootguard-core/internal/updater/manager.go:656-671 | Reverse-order undo takes a volume back to its recorded owner, whatever happened to it after it was recorded |
| ServiceUpdate.Updater.Compose | rootguard-core/internal/updater/manager.go:801-806 | The container may end on any image; only the call itself is recorded |
| ServiceUpdate.Updater.VerifyImageSwapped | rootguard-core/internal/updater/manager.go:778-787 | Succeeds only when the container runs the candidate |
| ServiceUpdate.Updater.VerifyWithRetry | rootguard-core/internal/updater/manager.go:855-871 | Succeeds only when a check passed |
| ServiceUpdate.Updater.RecordHistory | rootguard-core/internal/updater/manager.go:556-564 | Newest first, at most 50, the newest 49 older entries kept in order |
| PairUpdate.Updater.Update | rootguard-updater/manager.go:231-339 | Success: every container runs the ID that was read for the image attested for it, all of them read and attested before anything was touched; the override with these images was written, the containers recreated from it, and all were healthy. Rolled back: the same with the old images. A failed rollback at least tried the old override. No change exactly when every container already runs its candidate. Every failure needs a cause in the log or in what came up. Every entry of the history was true when it was written, so no mixed pair is ever recorded as a success or as rolled back |
| PairUpdate.Updater.Swap | rootguard-updater/manager.go:305-339 | From the override on: the new pair, the old pair, or a recorded rollback failure, with the calls that led there and the cause |
| PairUpdate.Updater.FindCandidates | rootguard-updater/manager.go:235-290 | Every service gets a candidate whose image was attested for it and whose ID was read from that image; nothing is touched; it fails only for a cause |
| PairUpdate.Updater.FindCandidate | rootguard-updater/manager.go:239-289 | One service: the image attested, its ID read, and no pair of version queries that showed it to be older |
| PairUpdate.Updater.PullImage | rootguard-updater/manager.go:245-263 | The image is the target, or what pulling it answered; the ID comes from the last command, an inspection of that image |
| PairUpdate.Updater.CheckVersion | rootguard-updater/manager.go:275-282 | Refuses exactly when both versions could be read and the candidate is known to be older |
| PairUpdate.Updater.WriteOverride | rootguard-updater/manager.go:534-547 | Names an image for every service or fails |
| PairUpdate.Updater.Compose | rootguard-updater/manager.go:437-442 | Containers may end on any image; when each comes up on the one wanted, the pair runs |
| PairUpdate.Updater.Verify | rootguard-updater/manager.go:467-488 | Passes only when every container runs the expected image and is healthy |
| PairUpdate.Updater.VerifyWithRetry | rootguard-updater/manager.go:444-458 | Passes only when one such pass does |
| PairUpdate.Updater.Rollback | rootguard-updater/manager.go:427-435 | Always tries the old override; reports success only when it was written, the containers recreated from it, running the old images, and healthy |
| PairUpdate.Updater.RecordHistory | rootguard-updater/manager.go:341-349 | Newest first, at most 50, the newest 49 older entries kept in order; every entry true of the containers at the time it was written |
| UpdaterExclusion.MutualExclusion | rootguard-core/internal/updater/manager.go:295-359 | Over all interleavings, crashes and failed state writes: at most one operation holds the manager, it is busy exactly while one does, and the history never exceeds 50 |
| UpdaterExclusion.InvStep | rootguard-core/internal/updater/manager.go:295-359 | Every step keeps the invariant |
| UpdaterExclusion.InvAfter | rootguard-core/internal/updater/manager.go:295-359 | So does every run |
| UpdaterExclusion.CleanupGoesToOwnEntry | rootguard-core/internal/updater/manager.go:566-573 | In every run the cleanup result of an update edits the entry that update recorded, and no other |
| UpdaterExclusion.CrashFrees | rootguard-core/internal/updater/manager.go:176-234 | A manager rebuilt after a crash in whatever state is not busy and lets the next operation in |
| UpdaterExclusion.OthersRefused | rootguard-core/internal/updater/cleanup.go:34-70 | While one operation holds the manager every other caller is turned away and changes nothing |
| UpdaterExclusion.FreeIsTaken | rootguard-core/internal/updater/manager.go:295-359 | In every reachable state that is free, a caller gets the manager: one operation of its kind, the activity that goes with it, the history untouched, the file written if the write succeeds |
| UpdaterExclusion.EndFrees | rootguard-core/internal/updater/manager.go:310-318 | An operation that ends leaves the manager free and idle or failed as it ended; only a cleanup then adds one entry, its own, in front of the newest 49 |
| UpdaterExclusion.RecordKeeps | rootguard-core/internal/updater/manager.go:556-564 | An update puts its own entry in front, keeps the newest 49 others in order, and goes on |
| UpdaterExclusion.CrashKeepsFile | rootguard-core/internal/updater/manager.go:176-234 | A new process has the history of the file; an operation found running there counts as failed |
| RateLimiter.Compact | rootguard-webapp/backend/internal/httpapi/ratelimit.go:105-118 | The in-place compaction is exactly a filter |
| RateLimiter.RecentTwice | rootguard-webapp/backend/internal/httpapi/ratelimit.go:105-118 | Pruning early loses nothing a later pruning would keep |
| RateLimiter.EveryWindowIsBounded | rootguard-webapp/backend/internal/httpapi/ratelimit.go:23-118 | If no failure ever had more than the limit in the window ending at it, no window wherever it ends has more |
| RateLimiter.Pruned | rootguard-webapp/backend/internal/httpapi/ratelimit.go:105-118 | After pruning, the kept times are the recent part of the full log |
| RateLimiter.Failed | rootguard-webapp/backend/internal/httpapi/ratelimit.go:64-78 | A failure keeps the bound on every window if and only if it had a reservation or the limit was not reached without it |
| RateLimiter.Limiter.BeginAttempt | rootguard-webapp/backend/internal/httpapi/ratelimit.go:49-58 | Admission equals the plain rule over the whole log since the last reset; other keys are untouched |
| RateLimiter.Limiter.EndAttempt | rootguard-webapp/backend/internal/httpapi/ratelimit.go:64-78 | Gives the reservation back, if there is one, and logs a failure; the invariant holds exactly unless a failure without reservation comes at the limit; other keys are untouched |
| RateLimiter.Limiter.Reset | rootguard-webapp/backend/internal/httpapi/ratelimit.go:83-87 | Forgets the failures of one key and no reservation |
| RateLimiter.Limiter.Sweep | rootguard-webapp/backend/internal/httpapi/ratelimit.go:96-103 | Prunes every key and decides no later admission differently |
| RateLimiter.Limiter.PruneLocked | rootguard-webapp/backend/internal/httpapi/ratelimit.go:105-118 | One key filtered, its entry dropped when empty |
| RateLimiter.Limiter.AddFailure | rootguard-webapp/backend/internal/httpapi/ratelimit.go:73-77 | The failure is appended to the pruned times |
| RateLimiter.Limiter.Release | rootguard-webapp/backend/internal/httpapi/ratelimit.go:67-72 | One reservation less, the entry dropped with the last |
| RateLimiter.Limiter.PruneAll | rootguard-webapp/backend/internal/httpapi/ratelimit.go:99-102 | The loop over the keys filters each of them |
| RateLimiter.Limiter.WindowBound | rootguard-webapp/backend/internal/httpapi/ratelimit.go:23-118 | In every reachable state, for every key: no window since the last reset holds more than the permitted failures, and failures plus reservations stay within the limit |
| SessionAuth.RecoveryMatches | rootguard-webapp/backend/internal/httpapi/auth.go:311-333 | After a recovery the credentials on disk and in memory agree if and only if the password file was not replaced by a write reported as failed |
| SessionAuth.AccountMatches | rootguard-webapp/backend/internal/httpapi/auth.go:437-511 | After an account change they agree for every pattern of write failures, except exactly when a write that was given up on replaced the file |
| SessionAuth.HandlersCover | rootguard-webapp/backend/internal/httpapi/auth.go:437-645 | Every handler keeps the tokens in memory a subset of those on disk, unless a failed write replaced the file |
| SessionAuth.UncoveredExactly | rootguard-webapp/backend/internal/httpapi/auth.go:437-511 | In those cases a session is accepted that a restart would lose, exactly when there was another session |
| SessionAuth.SuccessEndsOtherSessions | rootguard-webapp/backend/internal/httpapi/auth.go:437-511 | Reported success: new credentials in force and stored, no session but the caller's in memory or on disk; none after recovery |
| SessionAuth.RefusalKeepsMemory | rootguard-webapp/backend/internal/httpapi/auth.go:437-511 | A refused change keeps the credentials in memory; only recovery may end sessions |
| SessionAuth.SoundInEveryRun | rootguard-webapp/backend/internal/httpapi/auth.go:311-766 | In every run of all handlers with restarts anywhere: credentials on disk and in memory agree and the tokens in memory are on disk, unless a write that was given up on replaced its file |
| SessionAuth.SessionsComeFromLogins | rootguard-webapp/backend/internal/httpapi/auth.go:577-606 | Only a login issues a session: after any run with any failures and restarts, every token in memory or on disk was there before or was issued in it |
| SessionAuth.EndedSessionsStayEnded | rootguard-webapp/backend/internal/httpapi/auth.go:437-511 | A session ended by a reported account change or recovery is never accepted again, in any later run, unless a login issues its token anew |
| SessionAuth.LogoutUntilRestart | rootguard-webapp/backend/internal/httpapi/auth.go:624-645 | A logout is undone by the next restart if and only if its write was refused and the session has time left |
| SessionAuth.DropUntilRestart | rootguard-webapp/backend/internal/httpapi/auth.go:726-754 | A revoked session comes back with the next restart if and only if every write was refused and it has time left |
| SessionAuth.RenameKeepsPassword | rootguard-webapp/backend/internal/httpapi/auth.go:391-450 | A change of name alone, with anything happening between its two locks: the password survives if and only if the last one put in force in between, if any, is the one that was copied |
| SessionAuth.RenameRevertsRecovery | rootguard-webapp/backend/internal/httpapi/auth.go:391-450 | A concrete run: a recovery that was reported as done is taken back, in memory and on disk, by a rename that was under way |
| SessionAuth.LoginIssues | rootguard-webapp/backend/internal/httpapi/auth.go:585-606 | A login whose write succeeds issues its session, in memory and in the file, and keeps exactly the other live ones |
| SessionAuth.LoginUntilExpiry | rootguard-webapp/backend/internal/httpapi/auth.go:585-606 | That session is accepted after a restart if and only if it has time left, under its name and until the same time |
| SessionAuth.LoginRefused | rootguard-webapp/backend/internal/httpapi/auth.go:585-606 | A login that cannot be stored issues nothing and ends no live session |
| SessionAuth.RestartAccepts | rootguard-webapp/backend/internal/httpapi/auth.go:839-878 | A restart accepts exactly the sessions of the file that have time left, under their names, and the credentials of the file |
| SessionAuth.LogoutEnds | rootguard-webapp/backend/internal/httpapi/auth.go:624-654 | A logout ends exactly its session at once, whatever the write does |
| SessionAuth.AccountReplies | rootguard-webapp/backend/internal/httpapi/auth.go:437-511 | What an account change reports, by its three writes; then the requested name and password are in force, and after plain success stored with the caller's session under that name |
| SessionAuth.Service.HandleRecovery | rootguard-webapp/backend/internal/httpapi/auth.go:311-333 | The locked section computes its definition, including every undo; it reports success exactly when both writes succeed, with the new password in force and stored and no session left |
| SessionAuth.Service.HandleAccount | rootguard-webapp/backend/internal/httpapi/auth.go:437-512 | The locked section computes its definition, including both undos |
| SessionAuth.Service.HandleLogin | rootguard-webapp/backend/internal/httpapi/auth.go:585-606 | Stored: the session is in memory and in the file; not stored: it is taken back; the other live sessions are kept either way, and memory stays covered by disk |
| SessionAuth.Service.HandleLogout | rootguard-webapp/backend/internal/httpapi/auth.go:624-654 | The session ends in memory whatever the write does, no other does, and the reply tells whether that is stored |
| SessionAuth.Service.HandleRevoke | rootguard-webapp/backend/internal/httpapi/auth.go:707-766 | Ends exactly one session of that ID, with the file as the three attempts leave it; success exactly when one of them succeeds |
| SessionAuth.Service.AuthenticatedUser | rootguard-webapp/backend/internal/httpapi/auth.go:781-806 | A user exactly for a live session; an expired one is dropped from memory and, if the write succeeds, from the file |
| SessionAuth.Service.DeleteExpired | rootguard-webapp/backend/internal/httpapi/auth.go:831-837 | Keeps exactly the live sessions |
| SessionAuth.Service.Restart | rootguard-webapp/backend/internal/httpapi/auth.go:839-929 | Starts exactly when the credentials file is absent or readable; finds the credentials that were in force and every live session that was stored, with identifiers filled in |
| SessionAuth.Service.LoadSessions | rootguard-webapp/backend/internal/httpapi/auth.go:839-878 | The live sessions of the file, each without an identifier given one, and the file rewritten exactly when one was |
| DigCommand.ZoneNamesExactly | rootguard-core/internal/unbound/settings.go:292-306 | A name is a valid zone name if and only if the gate's name grammar accepts it and it is lower case, dot-terminated, not the root, and at most 254 characters |
| DigCommand.LabelAccepted | rootguard-core/internal/unbound/settings.go:314-327 | The two label languages agree on lower case |
| DigCommand.ValidateUnboundDig | rootguard-docker-proxy/validate.go:670-702 | The scanner accepts exactly the argument lists of its definition |
| DigCommand.AcceptedExactly | rootguard-docker-proxy/validate.go:670-702 | A list is accepted if and only if every argument is one of six output options, a time or retry count of one or two digits, -4, -6, -p with its number, a target, one of the types A, NS and SOA, or a name; and a target, a type and exactly one name are there |
| DigCommand.GateCoversForwardChecks | rootguard-core/internal/unbound/forwarding.go:76-109 | Acceptor covers generator: the SOA query built for every zone and server that the settings validator lets through is accepted by the gate |
| ReverseDns.ReverseDNSAddresses | rootguard-core/internal/routerimport/reversedns.go:99-137 | Succeeds exactly for a non-empty list of eligible prefixes with at most 256 addresses in all; the result is strictly increasing and exactly their union, and entirely private |
| ReverseDns.AddBlock | rootguard-core/internal/routerimport/reversedns.go:123-128 | Adds exactly the addresses of one prefix, stops exactly when there would be more than 256 |
| ReverseDns.Sorted | rootguard-core/internal/routerimport/reversedns.go:130-134 | The set in strictly increasing order |
| ReverseDns.EntirelyPrivate | rootguard-core/internal/routerimport/reversedns.go:116-122 | A private prefix of permitted size is private in every address |
| ReverseDns.LanIs | rootguard-core/internal/routerimport/reversedns.go:109-121 | The private addresses of both families as intervals of numbers |
| Addresses.ShrInterval | rootguard-core/internal/routerimport/reversedns.go:123-128 | Membership in a prefix is membership in the interval the enumeration walks |
| Manifest.CompareInStep | rootguard-core/internal/backuprestore/archive.go:219-254 | Both lists sorted and compared in step: equal lists of permitted paths |
| Manifest.CompareByLookup | rootguard-core/internal/updater/backups.go:255-291 | The loop with its map computes count and lookup |
| Manifest.InStepExactly | rootguard-core/internal/backuprestore/archive.go:219-254 | The sorted comparison accepts exactly a rearrangement of the files found |
| Manifest.LookupExactly | rootguard-core/internal/updater/backups.go:255-291 | So does count and lookup, by counting |
| Manifest.SameFilesExactly | rootguard-core/internal/updater/backups.go:255-291 | That relation is: nothing recorded twice, and recorded is exactly what is found |
| Manifest.ComparisonsAgree | rootguard-core/internal/updater/backups.go:255-291 | The two comparisons accept or refuse every recorded list together |
| BackupArchive.Extract | rootguard-core/internal/backuprestore/archive.go:87-160 | The loop over entries stages exactly what its definition says, or refuses |
| BackupArchive.ValidateManifest | rootguard-core/internal/backuprestore/archive.go:203-268 | Accepts exactly when the manifest decodes to a list of permitted paths that is what was staged, and the required files are there |
| BackupArchive.AcceptedEntries | rootguard-core/internal/backuprestore/archive.go:87-160 | Acceptance implies distinct safe names, all permitted, within count and size limits, and the staged tree is exactly the entries |
| BackupArchive.AcceptedExactly | rootguard-core/internal/backuprestore/archive.go:87-160 | A stream is read if and only if it has at most 100000 entries and 4294967296 bytes, each entry is acceptable on its own, the names are distinct, and no file lies inside another |
| BackupArchive.SafeExactly | rootguard-core/internal/backuprestore/archive.go:175-181 | The safe names are exactly those without NUL whose segments are neither empty nor . nor .., and .. itself, which no directory rule lets through |
| BackupArchive.AcceptedNamesStay | rootguard-core/internal/backuprestore/archive.go:175-201 | No accepted name is absolute or has an empty, . or .. segment, so followed segment by segment it leads from any directory to a place below it; a file other than the manifest lies in one of the seven literal directories, a directory there or on the way there |
| BackupArchive.AcceptedFilesApart | rootguard-core/internal/backuprestore/archive.go:140-151 | No staged file lies inside another |
| BackupArchive.RestorableHolds | rootguard-core/internal/backuprestore/archive.go:255-268 | An accepted backup holds the three required files, and its installation record passes the check |
| BackupArchive.DirectoryAllowed | rootguard-core/internal/backuprestore/archive.go:192-201 | Every directory of an exportable tree is one the import permits |
| BackupArchive.ListedFiles | rootguard-core/internal/backupexport/export.go:193-250 | An export in any order lists exactly the files of the tree |
| BackupArchive.InventoriesAgree | rootguard-core/internal/backupexport/export.go:153-191 | Two inventories of the same tree list the same files |
| BackupArchive.ExportThenExtract | rootguard-core/internal/backupexport/export.go:131-239 | Round trip: the entries of every exportable tree, in any order of the walk, are accepted, give back the identical path-to-content map, and its manifest is accepted |

## Left out

- UnboundRender.Render: the wording of the comments is a parameter; the laws ask only that each is a single line.
- UnboundRoundTrip.RoundTrip: IPv6 zones with characters other than printable ASCII, or with a blank, quote, backslash or comment sign, are excluded by `PlainLiterals`; the validators accept them, and `UnboundRenderedBlocks.CommentCutsLiteral` shows that some can never be read back.
- UnboundRoundTrip.ImportOfRendered: the same.
- UnboundRenderedBlocks.BlocksOfRendered: the same.
- UnboundImport.ImportUnboundConf: the detail texts of findings are not modelled; the findings for reverse policies come in a fixed order of networks, where the source follows the order of a map.
- UnboundCustom.NormalizeCustom: text is a sequence of Unicode characters, so the check for invalid UTF-8 has nothing to refuse.
- UnboundAccessControl.AccessControlGrantsNonPrivateAccess: parsing of the range literal is a parameter; the proof covers every prefix it can return.
- UnboundApply.Manager.LoadSettings: reads files that an apply wrote; `UnboundLegacy.Load` reads the others, and `UnboundLegacy.WrittenIsLoaded` connects the two.
- UnboundApply.Manager.ApplyStateLocked: a crash between the three separate writes is not modelled, the code promises nothing there; history entries that cannot be read are not modelled.
- ServiceUpdate.Updater.Update: what a backup copies is an answer of the oracle, and a pull answers with the image qualified by its digest; progress texts, retention of old backups and the contents of the cleanup after success are left out.
- ServiceUpdate.Updater.RecordHistory: the message and time of an entry are left out.
- PairUpdate.Updater.PullImage: a pull answers with the image qualified by its digest; how that is read off its output is left out.
- PairUpdate.Updater.CheckVersion: the order of release versions is a parameter.
- SessionAuth.Service.HandleLogin: password hashing, cookies and audit records are left out; the limiter is a module of its own.
- RateLimiter.Limiter.BeginAttempt: the clock does not go backwards.
- BackupArchive.ExportThenExtract: encryption, compression and tar framing carry the entries unchanged, the manifest's encoding and the digest are parameters, and any order of the directory walk is covered; symbolic links and special files in the tree are left out.
- BackupArchive.ValidateManifest: a manifest that does not decode, has trailing data or another version is one failing answer of the decoder.
- ReverseDns.ReverseDNSAddresses: the map is enumerated in some order before sorting; the lookups that follow are left out.
- DigCommand.ValidateUnboundDig: the other commands that the proxy admits are settled by one comparison each.
- Case folding is ASCII: `strings.ToLower` and `strings.EqualFold` on other letters are not modelled.
- Quoting (`%q`) escapes quotes, backslashes and line breaks; its treatment of other control characters is not needed, since the validators admit none.
- Parsing and printing of IP addresses is a parameter with the canonical-form test as its only property; the IPv4-in-IPv6 case of `IsPrivate` does not arise for the prefixes enumerated.
- Timeouts and budgets appear as steps that may fail.
- HTTP routing, request decoding, the front ends, the installer, the router discovery protocol, advisor texts, presets, log handling and the diagnostics are left out: none of the properties above depends on them.
