# A verified model of the intrusion-detection pipeline

The pipeline reads packets, groups them into bidirectional flows, matches rules against each packet, and decodes a few
protocols on the way. This project models the parts of it that are algorithms in their own right, and proves what they
promise. `dafny verify dfyconfig.toml` checks everything.

**Flows** (`ids/stages/flow.py`)

- `FlowModel.dfy`, `FlowSpec.dfy`: the values, the TCP transition table, and the tracker as a function of its state.
- `FlowTracker.dfy`: the tracker as the source keeps it, with mutable flows in two ordered tables and a pending list.
  Every method is proved to do what `FlowSpec` says.
- `TcpRuns.dfy`: which packets close or reset a connection, from the packets of a flow alone.
- `FlowInvariant.dfy`, `FlowTotals.dfy`: what holds for packets in any order: consistent tables, the flow limit, sound
  expiry, conservation of packets, bytes and flows, and the order of the flush.
- `FlowOrder.dfy`: exactly when the tables stay least-recently-used queues, when the front-only expiry is a full scan,
  and when the evicted flow is the oldest.
- `FlowCapacity.dfy`: exactly when a packet evicts, and that a run evicts nothing while its endpoint pairs fit into the
  tables.
- `FlowOffline.dfy`, `FlowRefinement.dfy`: for timestamps that never decrease, refinement of an offline split of each
  endpoint pair's packets, with one more cut at each eviction of the pair's flow, and independence of all other
  traffic.
- `FlowAttribution.dfy`: for packets in any order, each written flow counts its own packets and each packet is in one
  flow.
- `FlowWriting.dfy`: in which order flows are written and what each record shows, told from the packets alone.
- `FlowIdentity.dfy`: exactly when two flows of a run get the same identity, with late packets and evictions.
- `FlowLimits.dfy`: concrete runs that break the promises below.

**Rules** (`ids/engine/`)

- `ContentMatch.dfy`: the memoised search for contents under windows, against what a placement is.
- `RuleMatch.dfy`, `RuleRepository.dfy`, `RuleEvaluator.dfy`: matching, the protocol and port index, and the counters.
- `RuleStages.dfy`: what the header, flow and packet stages ask, the flow stage from the packets of the flow.
- `RuleTokens.dfy`, `RuleContents.dfy`, `RuleValues.dfy`, `RuleOptions.dfy`: the text of a rule's options, split,
  scanned, read value by value, and checked, with exactly the texts that are accepted and what each says.
- `RuleFaults.dfy`: why options are rejected, and which rejections are unsupported rather than invalid.
- `RulePrinting.dfy`, `RuleRoundTrip.dfy`: options printed as text again, one by one and as whole lists, and read back.

**Protocols and files**

- `DnsHeader.dfy`, `DnsNames.dfy`, `DnsMessage.dfy`, `DnsReports.dfy`, `DnsWriting.dfy` (`ids/parsers/dns.py`): the
  header word, compressed names, the sections of a message, what a cut changes, and messages written with compression
  pointers and read back (RFC 1035).
- `Base64.dfy`, `SmtpFrame.dfy` (`ids/stages/mime.py`): Base64 with truncation (RFC 4648) and message framing (RFC
  5321).
- `DotSegments.dfy` (`ids/stages/preprocessor.py`): dot segments of a request path (section 5.2.4 of RFC 3986).
- `LineReader.dfy` (`ids/capture/events.py`): bounded reading of lines.

Times are real numbers. An error that the source raises is an `Err` value. A rule's place in the source's form is kept:
what the source updates in place is a class or a loop here, and what it computes by expressions is a function.

Four promises do not hold for every input. For each the model has the exact condition, and an input that breaks it:

- **A message comes back whole.** A stuffed message does exactly when it has no bare line feed with two dots behind it,
  because the sender counts a line from CRLF and the pattern of `frame_message` from LF (`SmtpFrame.FrameUndoesSent`,
  `SmtpFrame.BareLineFeedLosesADot`). An empty message never comes back, whatever follows it, because no line end
  stands before its marker (`SmtpFrame.EmptyMessageNeverReturns`).
- **A flow identity is unique.** In every run, two written flows share an identity exactly when two packets of the run
  started flows at one instant, from one initiator to one counterpart, as many restarts deep
  (`FlowIdentity.IdentityRepeatsExactlyWhen`). In order that needs a flow that was evicted at the very instant at
  which it started (`FlowIdentity.IdentitiesAreUniqueUnlessEvictedAtOnce`), so it cannot happen while the endpoint
  pairs of the run are at most `max_flows` (`FlowIdentity.IdentitiesAreUniqueForFewPairs`). An eviction or a late
  packet can do it (`FlowLimits.EvictionRepeatsAnIdentity`, `FlowLimits.LatePacketRepeatsAnIdentity`).
- **A flow leaves when its timeout is over.** Expiry takes exactly the idle flows exactly when neither table holds an
  idle flow behind one that is not idle (`FlowOrder.ExpiryIsExact`). Sorted tables never do, and an update keeps them
  sorted exactly when its packet fits: a late packet that joins must not pass the flow behind its own, and a packet
  that starts a flow must not be older than the flow it will stand behind (`FlowOrder.UpdateKeepsOrderExactly`). A
  packet that is not late always fits. A late one that does not can leave an idle flow behind
  (`FlowLimits.LatePacketHidesAnIdleFlow`). No flow leaves too early in any case (`FlowInvariant.IdleExportsAreIdle`).
- **The oldest flow is evicted.** It is exactly when no flow is older than the front of each table
  (`FlowOrder.EvictedFlowIsOldest`). After a late packet a newer flow can be evicted
  (`FlowLimits.LatePacketEvictsANewerFlow`).

## Model

| member | source | states |
|---|---|---|
| FlowModel.KeyIsUnorderedPair | ids/stages/flow.py:139 | Two packets share a table key exactly when they have the same unordered pair of endpoints. |
| TcpRuns.RunCharacterised | ids/stages/flow.py:82-112 | For every packet run: CLOSED exactly when the run closes, RESET exactly when an RST without SYN came and it did not close, else CLOSING exactly after a FIN, else HANDSHAKE exactly while a SYN came first and no ACK, and in every state the FIN directions are the sides that sent FINs before the run was closed or reset, in their order. |
| TcpRuns.ClosedExactlyWhen | ids/stages/flow.py:82-112 | CLOSED exactly when the first pure FIN, a later pure FIN of the other side and a later pure ACK of the first side exist with no RST before that ACK. |
| TcpRuns.EndedExactlyWhen | ids/stages/flow.py:82-112 | A run is CLOSING, CLOSED or RESET exactly when some packet of it carried FIN or RST without SYN. |
| TcpRuns.RestartsExactlyWhen | ids/stages/flow.py:86 | The last packet of a run restarts the connection exactly when it carries SYN without ACK behind a packet with FIN or RST and without SYN. |
| TcpRuns.NeverMovesBack | ids/stages/flow.py:85-98 | Along a run the state never moves back, and CLOSED and RESET are absorbing. |
| TcpRuns.FinDirectionsFitState | ids/stages/flow.py:73-98 | The FIN directions are empty, non-empty or two distinct sides as the state demands. |
| FlowInvariant.UpdateKeeps | ids/stages/flow.py:131-161 | After every update, for any timestamps: keys distinct and true to their flows, at most max_flows flows, at most one export that is not an idle timeout, and every idle export idle for longer than its timeout. |
| FlowInvariant.JoinAndReuseEvictNothing | ids/stages/flow.py:141-150 | A packet that joins a live flow or reuses an ended connection's endpoints evicts nothing. |
| FlowInvariant.IdleExportsAreIdle | ids/stages/flow.py:198-207 | In any state a flow exported as idle was idle for longer than its own protocol's timeout. |
| FlowInvariant.ContextAfterUpdate | ids/stages/flow.py:163-171 | Right after an update the context of the packet names the flow id and the direction that the update returned, with the packet counted: a started flow shows one packet and the first state of the table, and a joined one shows its old counts and one more, and the next state. |
| FlowInvariant.PlayKeeps | ids/stages/flow.py:131-161 | Every reachable state is consistent and within the limit, and every exported flow is well formed. |
| FlowTotals.PacketsAreConserved | ids/stages/flow.py:258-271 | After every packet of every run, active and exported flows together hold exactly the packets seen. |
| FlowTotals.BytesAreConserved | ids/stages/flow.py:258-271 | The same for the bytes. |
| FlowTotals.EachFlowIsInOnePlace | ids/stages/flow.py:185-226 | Each flow created so far is in exactly one place: once in a table or once in the exports. |
| FlowTotals.WholeRunIsConserved | ids/stages/flow.py:173-226 | A run that ends with a flush exports every created flow exactly once, with all packets and bytes. |
| FlowTotals.FlushIsOrderedAndComplete | ids/stages/flow.py:173-183 | A flush exports exactly the flows of both tables: an earlier record has the smaller start_time, or the same one and no greater number. |
| FlowTotals.SortOrders | ids/stages/flow.py:175-178 | The sort behind expiry and flush orders its entries for every total preorder. |
| FlowOrder.UpdateKeepsOrderExactly | ids/stages/flow.py:157-160 | For any timestamp, an update of sorted tables leaves them sorted by last_seen exactly when its packet fits: read after expiry, a late join does not pass the next flow, and a new flow is not older than the one before it. |
| FlowOrder.RunStaysSortedExactly | ids/stages/flow.py:157-160 | Both tables stay sorted all through a run exactly when every packet of it fits. |
| FlowOrder.PlayIsSorted | ids/stages/flow.py:157-160 | Timestamps that never decrease keep both tables sorted all through a run. |
| FlowOrder.FrontScanIsFullScan | ids/stages/flow.py:198-205 | In every table the scan that stops at the first live flow finds exactly the idle flows of the whole table exactly when no idle flow stands behind one that is not idle. |
| FlowOrder.ExpiryIsExact | ids/stages/flow.py:198-207 | In every state expiry takes exactly the flows that a scan of both tables would, exactly when neither table hides an idle flow behind a live one. |
| FlowOrder.SortedExpiryIsExact | ids/stages/flow.py:198-207 | All through a run whose packets fit, every update expires exactly the idle flows. |
| FlowOrder.EvictedFlowIsOldest | ids/stages/flow.py:209-215 | The flow that an update evicts has the smallest last_seen of all flows left after expiry exactly when no flow is older than the front of each table. |
| FlowOrder.EvictedFlowIsLeastRecent | ids/stages/flow.py:209-215 | All through a run whose packets fit, every evicted flow is the least recently seen one. |
| FlowCapacity.EvictsExactlyWhenFull | ids/stages/flow.py:209-215 | An update evicts exactly when after expiry its packet finds no flow and the tables hold max_flows flows. |
| FlowCapacity.RunEvictsNothingExactly | ids/stages/flow.py:209-215 | A run evicts nothing exactly when no packet of it meets that guard. |
| FlowCapacity.FewPairsEvictNothing | ids/stages/flow.py:139-150 | A run with at most max_flows endpoint pairs evicts nothing, in whatever order its packets come. |
| FlowOffline.SegmentsPartition | ids/stages/flow.py:131-161 | The offline split of a packet list loses, repeats and moves no packet. |
| FlowOffline.OfflineStep | ids/stages/flow.py:131-161 | One more packet changes the offline flows as the tracker would: a new flow after a gap over the timeout, or on a TCP packet with SYN and without ACK after a packet of the last flow with FIN or RST and without SYN, and otherwise one more packet in the last flow. |
| FlowRefinement.StretchesArePackets | ids/stages/flow.py:131-161 | The stretches of a pair, cut where its flow is evicted, are its packets: none is lost, repeated or moved. |
| FlowRefinement.Refines | ids/stages/flow.py:131-161 | In order, evictions or not, per protocol and endpoint pair, exported flows and then the live one are the offline flows of the pair's stretches. |
| FlowRefinement.RunIsOfflineSplit | ids/stages/flow.py:131-183 | Of all flows a run in order writes, those of one pair are the offline flows of its packets with one more cut at each eviction of its flow, in order and with the same final counters, times, state and identity. |
| FlowRefinement.CalmRunSplitsOffline | ids/stages/flow.py:131-183 | In order and without an eviction they are the offline flows of the pair's packets, without a further cut. |
| FlowRefinement.FewPairsSplitOffline | ids/stages/flow.py:131-183 | In particular with at most max_flows endpoint pairs. |
| FlowRefinement.OutputIsOffline | ids/stages/flow.py:131-161 | In order, the flow id and the direction that each packet gets depend only on the packets of its own pair since an eviction last took its flow. |
| FlowRefinement.CalmOutputIsOffline | ids/stages/flow.py:131-161 | In order and without an eviction, they depend only on the packets of its own pair so far. |
| FlowRefinement.NonInterference | ids/stages/flow.py:131-161 | Two runs in order that show a pair the same packets, and evict its flow between the same ones, write the same flows for it, whatever else they carry. |
| FlowRefinement.CalmRunsDoNotInterfere | ids/stages/flow.py:131-161 | In runs in order and without evictions the same packets are enough. |
| FlowRefinement.FewPairsDoNotInterfere | ids/stages/flow.py:131-161 | In particular with at most max_flows endpoint pairs. |
| FlowRefinement.WrittenCloseIsReal | ids/stages/flow.py:82-112 | In order, evictions or not, a written TCP flow is CLOSED exactly when its own packets show FIN, FIN of the other side and ACK, and no earlier RST. |
| FlowRefinement.IdentitiesIncrease | ids/stages/flow.py:185-196 | Successive offline flows of one pair have strictly increasing (start time, occurrence) pairs, also for restarts at one instant. |
| FlowAttribution.WrittenFlowsAreSegments | ids/stages/flow.py:131-183 | In every run, with late packets and evictions, the packets of a pair, cut before each one that starts a flow, lose and repeat none, and the flows written for the pair are those of the pieces, one each and in order: counters, detection, TCP state, first and latest time. |
| FlowAttribution.RunIsAttributed | ids/stages/flow.py:131-161 | The same after every packet, for the flows exported so far and the live one. |
| FlowAttribution.StartsExactlyWhen | ids/stages/flow.py:139-150 | In every run a packet starts a flow exactly when its pair has none left after expiry, or when it carries SYN without ACK over TCP and a packet of the last piece of the pair carried FIN or RST without SYN. |
| FlowAttribution.SegmentJoins | ids/stages/flow.py:258-271 | A joining packet, late or not, changes the flow of a piece to that of the piece with the packet. |
| FlowAttribution.LatestIsGreatest | ids/stages/flow.py:258-271 | The last_seen of a piece is the greatest time of its packets, whichever of them it is. |
| FlowAttribution.WrittenCloseIsAlwaysReal | ids/stages/flow.py:82-112 | In every run a written TCP flow is CLOSED exactly when its own packets show FIN, FIN of the other side and ACK, and no earlier RST. |
| FlowWriting.FlushIsInOrder | ids/stages/flow.py:173-183 | After every run, of two flushed records the earlier one has the smaller start_time, or the same one and the smaller number. |
| FlowWriting.FlushNumbersIncrease | ids/stages/flow.py:173-183 | In order, a flush writes the flows in the order in which they were created. |
| FlowWriting.IdleExportsAreInOrder | ids/stages/flow.py:198-207 | Of what one update writes, the idle flows come first, each with the smaller last_seen, or the same one and the smaller number. |
| FlowWriting.EvictedIsTheOlderFront | ids/stages/flow.py:209-215 | An evicted flow is the front of a table, and the other front has not the smaller last_seen, nor the same one and the smaller number. |
| FlowWriting.WrittenFlowsShowTheirPackets | ids/stages/flow.py:246-271 | In every run each written flow shows its own packets: the initiator by the first of them, which is the receiver of a SYN/ACK, the first and the greatest time, how many came from each side and carried each flag, and the first detection of the highest rank. |
| FlowWriting.CountIfCounts | ids/stages/flow.py:258-269 | A counter is the number of places at which such a packet stands. |
| FlowWriting.DetectIsFirstBest | ids/stages/flow.py:270-271 | The detection is that of the first packet of the highest rank. |
| FlowIdentity.EachStartIsWrittenOnce | ids/stages/flow.py:185-196 | In every run each packet that started a flow is behind exactly one written flow, with the identity told from the starts before it. |
| FlowIdentity.IdentityRepeatsExactlyWhen | ids/stages/flow.py:185-192 | In every run two written flows share an identity exactly when two packets started flows at one instant, from one initiator to one counterpart, as many restarts deep. |
| FlowIdentity.IdentitiesAreUniqueUnlessReopened | ids/stages/flow.py:185-192 | In order, evictions or not, no identity repeats unless a pair without a live flow starts one at an instant at which it already started one. |
| FlowIdentity.ReopeningRepeats | ids/stages/flow.py:185-192 | Such a pair does repeat an identity when both starts found no live flow and come from the same side. |
| FlowIdentity.ReopeningNeedsEviction | ids/stages/flow.py:185-215 | In order such a second start needs that the pair's flow was evicted at the instant at which it started. |
| FlowIdentity.IdentitiesAreUniqueUnlessEvictedAtOnce | ids/stages/flow.py:185-215 | In order, no identity repeats unless a flow is evicted at the very instant at which it started. |
| FlowIdentity.IdentitiesAreUniqueForFewPairs | ids/stages/flow.py:185-196 | In order and with at most max_flows endpoint pairs, no identity repeats. |
| FlowRefinement.AllExportsOk | ids/stages/flow.py:253-259 | Every written flow carries the id that its fields spell, and last_seen is at least start_time. |
| FlowLimits.EvictionRepeatsAnIdentity | ids/stages/flow.py:185-192 | A run in which an eviction makes two flows with the same identity. |
| FlowLimits.LatePacketRepeatsAnIdentity | ids/stages/flow.py:185-192 | A run without any eviction in which a late packet makes two flows with the same identity. |
| FlowLimits.LatePacketHidesAnIdleFlow | ids/stages/flow.py:157-160 | A run in which a late packet leaves an idle flow behind a live one, where expiry does not look. |
| FlowLimits.LatePacketEvictsANewerFlow | ids/stages/flow.py:209-215 | A run in which a late packet makes eviction take a flow that is not the oldest. |
| FlowTracker.LiveFlow.constructor | ids/stages/flow.py:185-196 | A new flow object has the fields of the created flow. |
| FlowTracker.LiveFlow.Count | ids/stages/flow.py:258-271 | Counting a packet in place changes the fields as the specification says. |
| FlowTracker.LiveFlow.Absorb | ids/stages/flow.py:151-156 | The packet is counted in its direction, and a TCP flow takes the given or the first step of the table. |
| FlowTracker.IdleFront | ids/stages/flow.py:201-205 | The scan of one table stops at the first flow that is not idle. |
| FlowTracker.FlowTracker.constructor | ids/stages/flow.py:116-129 | A new tracker is in the empty state. |
| FlowTracker.FlowTracker.Release | ids/stages/flow.py:217-222 | The records of the released flows are pending, and exactly their keys are gone from the tables. |
| FlowTracker.FlowTracker.Expire | ids/stages/flow.py:198-207 | The tables lose their idle fronts, which are pending in the order of last_seen and number. |
| FlowTracker.FlowTracker.MakeRoom | ids/stages/flow.py:209-215 | At the limit the older of the two front flows leaves, and below it nothing changes. |
| FlowTracker.FlowTracker.JoinFlow | ids/stages/flow.py:151-161 | A joining packet changes its own flow only and moves it to the end, except that a late packet leaves it in place. |
| FlowTracker.FlowTracker.OpenFlow | ids/stages/flow.py:148-161 | A starting flow stands behind all others, after room was made. |
| FlowTracker.FlowTracker.Reuse | ids/stages/flow.py:144-150 | A restarting SYN exports the old flow as a new connection before the limit is checked, and starts a flow in its place. |
| FlowTracker.FlowTracker.Place | ids/stages/flow.py:139-161 | The packet joins, replaces or starts its flow as the specification says. |
| FlowTracker.FlowTracker.Update | ids/stages/flow.py:131-161 | The new state, the id, the direction and the exports of an update are those of the specification, and the tracker stays valid. StartsExactlyWhen and WrittenFlowsShowTheirPackets say from the packets what that means. |
| FlowTracker.FlowTracker.Context | ids/stages/flow.py:163-171 | The context of a packet's flow is read without changing anything. |
| FlowTracker.FlowTracker.Flush | ids/stages/flow.py:173-183 | Every flow is exported in flush order, by start_time and number as FlushIsInOrder says, and both tables are empty. |
| ContentMatch.ContentPositions | ids/engine/matcher.py:122-159 | A placement is returned exactly when one exists, it is the lexicographically smallest, and for non-empty patterns the search makes at most n(L+1)^2 find calls. |
| ContentMatch.ContentSearch.Place | ids/engine/matcher.py:129-147 | The search keeps its set of failed pairs true, answers with the least placement from its index on, and runs each search body at most once per pair. |
| ContentMatch.ContentSearch.SearchBody | ids/engine/matcher.py:137-147 | Trying the fitting positions in turn finds the least placement or shows that there is none. |
| ContentMatch.HitsFit | ids/engine/matcher.py:138-159 | A hit of the slice search in its region is exactly a position where the whole pattern fits its offset/depth or distance/within window. Without case a payload byte fits a pattern byte when they are equal or one is the capital of the other, a letter of A to Z and 32 above it. |
| ContentMatch.CaseChangesNoPlacement | ids/engine/matcher.py:126-147 | Other cases of any letters of the nocase patterns change no placement, and neither do other cases of the letters of the payload while all contents are nocase. |
| ContentMatch.TotalFinds | ids/engine/matcher.py:129-147 | At most n(L+1) search bodies, and at most n(L+1)^2 find calls, follow from one body per pair. |
| ContentMatch.AnswersAgree | ids/engine/matcher.py:122-126 | The required answer of the search is unique. |
| RuleMatch.Match | ids/engine/matcher.py:12-33 | The result matches exactly when header, flow, packet and content stages all pass, and otherwise names the first stage that fails. The rows of RuleStages and HitsFit say what each stage asks. |
| RuleMatch.ReportsAgree | ids/engine/matcher.py:12-33 | The report of a rule and a record is unique, so it does not depend on the rules tried before. |
| RuleMatch.BothWaysIsEitherWay | ids/engine/matcher.py:42-49 | A `<>` rule matches exactly when the `->` rule matches the record or its reverse. |
| RuleMatch.SameProtocolEitherCase | ids/engine/matcher.py:36-41 | The upper-case comparison of the matcher and the lower-case one of the index accept the same protocol names. |
| RuleStages.ContextTellsPiece | ids/stages/flow.py:163-171 | In every run, right after each packet, the rules are told the direction by the side that opened its flow, the state that the packets of the flow give, and whether each side has sent. |
| RuleStages.FlowStageAfterPacket | ids/engine/matcher.py:66-77 | Right after each packet of every run `to_server` passes exactly when the side that opened its flow sent it, `to_client` exactly when the other side did, and `established` exactly when the packets of the flow show a connection that is up: over TCP past its handshake and neither closed nor reset, over UDP with packets of both sides. |
| RuleStages.HeaderMeans | ids/engine/matcher.py:36-63 | The header passes exactly when the record spells the protocol of the rule in any case, with `ip` for TCP and UDP, and both ends are inside the addresses and ports of the rule, for `<>` in either orientation. |
| RuleStages.FlagsMean | ids/engine/matcher.py:87-97 | Each modifier asks for all, some, none or exactly the flags of the check, and only of TCP packets. |
| RuleStages.DsizeMeans | ids/engine/matcher.py:104-113 | A size passes exactly one of the three checks against one value, and a range exactly when it is neither below nor above it, and no check passes without a size. |
| RuleRepository.Repository.constructor | ids/engine/repository.py:17-35 | The accepted rules are the valid ones whose sid no earlier valid entry claimed and nobody disabled, the report holds the others in order, and the index holds every accepted rule where a lookup finds it. |
| RuleRepository.Repository.Add | ids/engine/repository.py:40-50 | An added rule is where a lookup will find it, and no other rule moves. |
| RuleRepository.Repository.Candidates | ids/engine/repository.py:62-73 | Exactly the accepted rules that can concern the record, in sid order and without repeats. |
| RuleRepository.AcceptedSids | ids/engine/repository.py:17-35 | No two accepted rules share a sid, and none is disabled. |
| RuleRepository.NoEntryIsLost | ids/engine/repository.py:24-35 | Every usable entry stands in exactly one list at the place behind those of the entries before it: the accepted rules, or the report, under its own file, line and text, as invalid with the sid that an earlier entry claimed and without its rule, or else as disabled with its sid and its rule. The lists hold nothing else. |
| RuleRepository.IndexDropsNoMatch | ids/engine/repository.py:52-73 | Every rule whose header matches is a candidate, in both orientations of `<>` and for `ip` rules. |
| RuleRepository.CandidatesSaid | ids/engine/repository.py:52-73 | A rule is a candidate exactly when the record is over TCP or UDP and the rule is for `ip`, or for that protocol and names no single port on a side that decides or one that the record shows. |
| RuleEvaluator.Evaluator.Evaluate | ids/engine/evaluator.py:20-40 | The hits are the evaluation of every accepted rule, each counter grows by the number of rules it stands for, and candidate_rules stays the sum of rejected and rule_matches. |
| RuleEvaluator.StoredPayloadGoesFirst | ids/engine/evaluator.py:43-50 | The payload is the stored one even when it is empty, without it the preview, and without both empty. |
| RuleEvaluator.HitsAreEvaluation | ids/engine/evaluator.py:25-40 | Trying only the candidates gives the matches of all accepted rules, in sid order and without repeats. |
| RuleEvaluator.EvaluationIsUnique | ids/engine/evaluator.py:20-40 | There is only one such list. |
| RuleEvaluator.CountsAreExact | ids/engine/evaluator.py:31-39 | The counters count sets of rules: all candidates, and those that fail first at each stage. |
| RuleTokens.SplitOptions | ids/engine/parser.py:133-152 | The loop computes the specified split, or reports an open quote. |
| RuleTokens.ScanUndoesJoin | ids/engine/parser.py:133-151 | A join of tokens that are closed in quotes and escapes scans back as those tokens: none is split, none are merged. |
| RuleTokens.JoinUndoesScan | ids/engine/parser.py:133-151 | The tokens of any text join to that text, and no token holds a free separator. |
| RuleTokens.SplitIsTokens | ids/engine/parser.py:133-152 | A split succeeds exactly when the text is a join of tokens, which are unique, and gives them stripped and without empty ones. |
| RuleTokens.SpacesSaid | ids/engine/parser.py:152 | White space is exactly the 29 characters that `str.isspace` accepts. |
| RuleContents.ParseContent | ids/engine/parser.py:194-231 | The loop computes the specified pattern or the first error of the text. |
| RuleContents.ContentIsItsItems | ids/engine/parser.py:194-231 | A value is accepted exactly when it is a quoted list of plain characters, escapes and hex runs that means at least one byte, and its pattern is that meaning. |
| RuleContents.ItemsRead | ids/engine/parser.py:200-228 | Every rendering of such a list scans as its meaning. |
| RuleContents.Utf8Size | ids/engine/parser.py:200-228 | A plain character takes as few bytes as its number allows. |
| RuleContents.Utf8TellsItsNumber | ids/engine/parser.py:200-228 | Its bytes are its UTF-8: the marks of section 3 of RFC 3629 around the bits of its number. |
| RuleContents.HexDigitsSaid | ids/engine/parser.py:209-212 | The digits of a hex run are those of either case, with their values. |
| RuleValues.NumberIsItsDigits | ids/engine/parser.py:182-185 | A text is accepted as a number exactly when it is that number in at most ten digits, with zeros in front or not, behind a minus sign only where one is allowed, and every other text gives the same error. |
| RuleValues.MessageIsItsText | ids/engine/parser.py:268-273 | A message is accepted exactly when it is a non-empty text, in quotes or else not beginning with one, and it is the characters of that text behind its backslashes, where a backslash stands for itself before a line feed and at the end. |
| RuleValues.ParseFlow | ids/engine/parser.py:286-302 | The loop over the words of a flow check computes the specified option or the first error. |
| RuleValues.FlowIsItsWords | ids/engine/parser.py:286-302 | A flow check is accepted exactly when all its words are known and none contradicts another, and it checks what they say and nothing else. |
| RuleValues.FlowRoundTrip | ids/engine/matcher.py:80-84 | The text of a matched flow item reads back as its check, and a check of nothing has no text that a rule may hold. |
| RuleValues.FlagsAreTheirLetters | ids/engine/parser.py:304-323 | A flags check is accepted exactly when it is letters of flags, or a zero, with at most one modifier before or behind them, and it checks those. |
| RuleValues.DsizeIsItsText | ids/engine/parser.py:326-337 | A size check is accepted exactly when it is written in one of the three ways of its pattern with its limits in order, and it then checks what is written. |
| RuleValues.DsizeRoundTrip | ids/engine/matcher.py:116-119 | The text of a matched dsize item reads back as its check. |
| RuleFaults.FlagsRejected | ids/engine/parser.py:304-323 | A flags check is unsupported exactly when it holds a comma, or one mark and known letters with the digit 1 or 2. Otherwise a rejected one is invalid, for being empty, for a zero among known letters, or for an unknown character. |
| RuleFaults.DsizeRejected | ids/engine/parser.py:326-337 | A rejected size check is a range with its limits reversed, or else written in none of the three ways. |
| RuleValues.ValueIsItsText | ids/engine/parser.py:260-349 | Each single option accepts exactly the texts that say a value of its kind, as the rows above say it, and its value is the one that the text says. |
| RuleValues.AcceptedValueIsTyped | ids/engine/parser.py:260-337 | An accepted value has the type of its option: numbers that are not negative, texts that are not empty, a flow check that checks something, and limits in order. |
| RuleOptions.AddModifier | ids/engine/parser.py:234-247 | Only the last content gains one modifier that it did not have, and absolute values stay non-negative. |
| RuleOptions.ParseTokens | ids/engine/parser.py:155-173 | The loop over the tokens computes the specified values and contents, or the first error. |
| RuleOptions.ParseOptions | ids/engine/parser.py:155-179 | Splitting, reading each value, the required options, the default revision and the window checks, as specified. |
| RuleOptions.AcceptedIsReading | ids/engine/parser.py:159-173 | A list of tokens is accepted exactly when it has a reading, and its result is that reading, the only one: every token stands in it, each single option with its parsed value, each modifier at the last content before it, nothing comes from elsewhere, and nothing is set twice. |
| RuleOptions.FinishedExactlyWhenUsable | ids/engine/parser.py:250-257 | A content passes the last check exactly when its modifiers describe a usable window, one kind of window only and room for the pattern, and the result is the only content with those modifiers. |
| RuleFaults.FinishRejected | ids/engine/parser.py:250-257 | A content is rejected for mixed windows exactly when one modifier of each kind is set, and else only for a window that is too small. |
| RuleFaults.ModifierRejected | ids/engine/parser.py:234-247 | A modifier is rejected without a content before it, else for coming twice, else for a value behind `nocase` or a value that is no number. The check for negative numbers behind it never rejects anything. |
| RuleFaults.OptionsRejected | ids/engine/parser.py:155-349 | Rejected options are unsupported exactly for an unknown keyword, a negated content, an unknown flow value, a mask of flags or the flags 1 and 2, and invalid for everything else. |
| RuleOptions.OptionsAreTheirTokens | ids/engine/parser.py:155-179 | A text is accepted exactly when it is a join of tokens with a reading that has a sid and a msg and whose contents are all usable, and it gives the values of that reading, the default revision and those contents in their order. |
| RuleOptions.AcceptedOptionsAreUsable | ids/engine/parser.py:155-179 | Every accepted rule gives typed values and non-empty patterns in usable windows, one for each content token and in their order. |
| RulePrinting.WrittenContentSurvives | ids/engine/parser.py:133-231 | A content written in any legal way among any closed options reads back as the bytes it means, and no other option changes. |
| RulePrinting.PrintedContentSurvives | ids/engine/parser.py:133-231 | The same for every non-empty byte string, printed with escapes and hex runs. |
| RulePrinting.PrintedMessageSurvives | ids/engine/parser.py:133-273 | Every message that is not empty, printed with escapes among any closed options, reads back as itself, and no other option changes. |
| RulePrinting.ValueTextReads | ids/engine/parser.py:260-349 | Every value of a single option that has a text is read back from it. |
| RuleRoundTrip.PrintedOptionsRead | ids/engine/parser.py:133-257 | A whole option list, printed, reads back as the same values and contents with the same modifiers. |
| RuleRoundTrip.AcceptedIsPrintable | ids/engine/parser.py:133-257 | All options that any text gives can be printed. |
| RuleRoundTrip.AcceptedOptionsPrint | ids/engine/parser.py:133-257 | So every accepted text has a printed form that reads as the same options. |
| DnsHeader.HeaderRoundTrip | ids/parsers/dns.py:102-109 | The response bit, the opcode, the flag names and the response code of every header word are those it was written from, whatever its reserved bits are. |
| DnsHeader.EveryWordIsWritten | ids/parsers/dns.py:90-108 | Every header word is written from its fields. |
| DnsHeader.SameHeaderExactly | ids/parsers/dns.py:102-108 | Two header words are reported alike exactly when they differ in nothing but the reserved bits. |
| DnsHeader.NamesTellNumbers | ids/parsers/dns.py:19-20 | The name of a type or a response code tells its number, named or not. |
| DnsNames.ReadName | ids/parsers/dns.py:35-76 | The loop returns the name as its recursive meaning says, with the same error, and takes at most 192 iterations for any message. ReadNameIsItsLabels says which text that is. |
| DnsNames.NameAt | ids/parsers/dns.py:35-76 | A returned offset lies above the start of the name and at most at the end of the message. |
| DnsNames.ReadExactlyTheWalks | ids/parsers/dns.py:35-76 | A name is read exactly when a walk of labels and backward pointers with at most 64 jumps and 255 bytes starts there, and it is the labels of that walk. |
| DnsNames.ReadNameIsItsLabels | ids/parsers/dns.py:35-76 | Where a name without dots in its labels is read, the text, split at its dots, is the texts of the labels in their order, and the root is the empty text. |
| DnsNames.JoinedSplits | ids/parsers/dns.py:69 | The pieces of a joined name between its dots are the texts of its labels, in their order. |
| DnsNames.NameTellsItsLabels | ids/parsers/dns.py:69-73 | Different lists of ASCII labels without dots have different names. |
| DnsNames.TextIsAscii | ids/parsers/dns.py:73 | The text of a label is its bytes as ASCII characters, with the replacement character for every other byte. |
| DnsNames.PointerLeadsThere | ids/parsers/dns.py:53-57 | A byte begins a pointer exactly when its two high bits are set, and the pointer leads where its other 14 bits say. |
| DnsNames.PlainNameRoundTrip | ids/parsers/dns.py:64-76 | Every legal label list written anywhere reads back as itself, up to the byte after it. |
| DnsNames.CompressedNameRoundTrip | ids/parsers/dns.py:47-76 | Labels and a backward pointer to any readable name read back as the labels of both, up to the byte after the pointer. |
| DnsNames.PointerToWrittenName | ids/parsers/dns.py:47-76 | In particular for a pointer to a plainly written suffix. |
| DnsNames.ReadNamesAreLegal | ids/parsers/dns.py:35-76 | Every name that is read, however compressed, is a list of labels of 1 to 63 bytes with at most 255 bytes in all, and written plainly it reads back as itself. |
| DnsMessage.ReadQuestions | ids/parsers/dns.py:120-140 | The loop gives the questions, the offset and the fault of the specified section. |
| DnsMessage.ReadAnswers | ids/parsers/dns.py:143-175 | The same for the answers. |
| DnsMessage.ReadAnswer | ids/parsers/dns.py:150-163 | One record is read as its meaning says, with the first fault if there is one. |
| DnsMessage.ReadTexts | ids/parsers/dns.py:203-213 | The loop gives the strings of a text record, or its cut. |
| DnsMessage.ReadMessage | ids/parsers/dns.py:79-117 | Without a readable header there is an empty, partial message and one truncation fault, that of the prefix or that of the header. Otherwise the header word is told apart, both sections follow each other, capped at 64 records, the faults are in order, and the message is partial exactly when there is one. |
| DnsMessage.SectionIsLongestChain | ids/parsers/dns.py:120-175 | A section is the longest chain of readable records up to its count, and a fault is that of the record where the chain stops. |
| DnsMessage.SectionsFitTheMessage | ids/parsers/dns.py:99-100 | Both sections advance and stay inside the message: at least 5 bytes for each question and 11 for each answer. |
| DnsReports.RecordsAreCapped | ids/parsers/dns.py:94-100 | A report shows at most 64 questions and 64 answers, has the limit fault exactly when the header announces more of either, and shows as many as announced when it is not partial. |
| DnsReports.CutPayloadTellsLess | ids/parsers/dns.py:79-117 | A payload that is cut anywhere behind its header gives the same header, questions and answers that begin those of the whole payload, and no fault that is not a cut or one of the whole payload. Without a cut among its faults the report is the same. So a cut never looks malformed, and what is malformed stays so. |
| DnsReports.FaultsThatAreNoCut | ids/parsers/dns.py:244-246 | Malformed are exactly the forward pointer, the 65th jump, the long label, the long name and the name that leaves its record, and the limit is neither cut nor malformed. |
| DnsWriting.QuestionsRoundTrip | ids/parsers/dns.py:120-140 | Every list of questions written one after the other, with pointers or without, reads back as itself. |
| DnsWriting.DataRoundTrip | ids/parsers/dns.py:178-233 | Record data of every kind, written as its type asks, with pointers or without, reads back as itself. |
| DnsWriting.AnswersRoundTrip | ids/parsers/dns.py:143-175 | Every list of answers, of every kind of data, with pointers or without, reads back as itself. |
| DnsWriting.MessageRoundTrip | ids/parsers/dns.py:79-117 | Every message of up to 64 questions and 64 answers, with names written plainly or with pointers that lead back to the rest of the name, reads back as itself, without a fault. |
| DnsWriting.AnswersToAQuestionRoundTrip | ids/parsers/dns.py:79-117 | In particular every message whose names end at the root or point to any label of the first question's name. |
| DnsWriting.PrefixRoundTrip | ids/parsers/dns.py:83-86 | Over TCP a message behind its length is carried unchanged, whatever follows it. |
| DnsWriting.TextsRoundTrip | ids/parsers/dns.py:203-213 | The strings of a text record read back as themselves, empty ones too. |
| Base64.Letter | ids/stages/mime.py:30 | The letters are those of table 1 of RFC 4648, in its order, and a letter gives back its value. |
| Base64.LetterOfSextet | ids/stages/mime.py:30 | No other byte is a letter. |
| Base64.DecodeBase64 | ids/stages/mime.py:42-63 | The data are the bytes of the letters before any padding, and there is no problem exactly when the text is well formed, or was before it was cut. |
| Base64.CutEncodingDecodes | ids/stages/mime.py:42-63 | Every cut of every encoding, with white space anywhere, gives all whole bytes that its letters hold, a prefix of the original, and no problem. |
| Base64.EncodingDecodes | ids/stages/mime.py:42-63 | The full encoding of every byte string, with white space anywhere, gives the byte string and no problem. |
| Base64.ProblemsAreMalformations | ids/stages/mime.py:50-61 | Without its white space, a complete text has no problem exactly when its characters, length and padding are well formed, and a cut one exactly when it can be completed to such a text. |
| Base64.SpaceIsIgnored | ids/stages/mime.py:47 | White space inserted anywhere changes nothing. |
| Base.SpaceBytes | ids/stages/mime.py:47 | White space is tab, line feed, vertical tab, form feed, carriage return and blank. |
| SmtpFrame.FirstMarkerIsTheEnd | ids/stages/mime.py:102-110 | For every message that ends a line, the first marker in what was sent is the one behind the message, whatever follows. |
| SmtpFrame.FrameUndoesSent | ids/stages/mime.py:102-110 | The message comes back whole exactly when no bare line feed in it has two dots behind it, and its end is found in any case. |
| SmtpFrame.UnstuffUndoesStuff | ids/stages/mime.py:20-20 | Removing the dots undoes adding them, except for dots behind a bare line feed, where the text gets shorter. |
| SmtpFrame.BareLineFeedLosesADot | ids/stages/mime.py:102-110 | A message with a bare line feed and two dots behind it that does not come back as it was, whatever follows it. |
| SmtpFrame.EmptyMessageNeverReturns | ids/stages/mime.py:102-110 | Whatever follows an empty message, it does not come back: the bytes of its marker come first in the result, and an end is found exactly when the bytes behind the marker begin with a dot and CRLF or hold a marker. |
| DotSegments.RemoveDotSegments | ids/stages/preprocessor.py:225-237 | The stack loop returns what the buffer algorithm of section 5.2.4 of RFC 3986 returns. |
| DotSegments.RemovedIsRfc | ids/stages/preprocessor.py:225-237 | Both agree for every path that starts with a slash. |
| DotSegments.ResultHasNoDots | ids/stages/preprocessor.py:225-237 | The result has no `.` or `..` segment, and a path is unchanged exactly when it has none, so `//` stays. |
| DotSegments.RemovedIsIdempotent | ids/stages/preprocessor.py:225-237 | Removing twice is removing once. |
| DotSegments.PathAndQuery | ids/stages/preprocessor.py:218-222 | The path before the first `?` is normalised, the rest is the query, and other targets give neither. |
| LineReader.ByteFile.ReadLine | ids/capture/events.py:32 | At most so many bytes, up to the end of the line. |
| LineReader.SkipLine | ids/capture/events.py:52-55 | The discard loop stops at the end of its line. |
| LineReader.ReadContent | ids/capture/events.py:50-59 | A line is too long exactly when its content without one LF and one CR is over the limit, and the cursor stands behind the line in any case. |
| LineReader.ReadEntry | ids/capture/events.py:36-48 | One line gives a mark when it is too long, nothing when it is blank, and else its content without a byte order mark on line 1. |
| LineReader.ReadEvents | ids/capture/events.py:27-48 | The chunked reader gives the entries of the lines of the whole file. |
| LineReader.LinesAreTheSplit | ids/capture/events.py:27-59 | The lines are the only split of the file at its line feeds. |
| LineReader.WrittenTextsReadBack | ids/capture/events.py:27-59 | Texts written one to a line, with either line end, are read back in order under the numbers 1, 2, 3 and so on. |
| LineReader.EntriesAreTheLines | ids/capture/events.py:27-48 | Every line that is not blank gives one entry of its own content under its own number, in order. |
| LineReader.LineSaid | ids/capture/events.py:36-59 | A text with a line end gives the mark of a long line over the limit, nothing when only white space is left without a byte order mark on line 1, and else what is left. |

## Left out

- FlowTracker.FlowTracker.Update: takes an observation that is already read. `_observe`, `_rank` and missing keys of the record are not modelled, nor are interrupts and exceptions inside an update.
- Times are reals, so the rounding of float differences and of `duration` is not modelled, and the flow id is the hashed text itself, as if the digest had no collisions.
- An export is the flow with its end reason. The record that `_record` builds from it is a projection of those fields.
- RuleMatch.Match: IPv4 address text and networks are address numbers and ranges, and matched flow, flags and dsize items hold the options, not the texts printed from them.
- RuleMatch.SameProtocolEitherCase: protocol names outside ASCII, for which upper and lower case can disagree, are not modelled.
- RuleEvaluator.Evaluator.Evaluate: the one error modelled is a non-empty `normalized` value that is not an object. `bytes.fromhex` is taken as done.
- RuleOptions.ParseOptions: a rejection is its kind and its cause, without the text that the source builds around the value.
- RuleContents.ParseContent: a surrogate in the text, which UTF-8 cannot encode, is not modelled. The loader replaces such bytes when it reads a rule file.
- DnsMessage.ReadMessage: addresses and strings of records stay bytes, and a fault is its cause without the text of the message.
- Base64.DecodeBase64: like the source it does not ask that the unused bits of the last letter are zero (section 3.5 of RFC 4648).
- LineReader.ReadEvents: the JSON of a line is not parsed, so a line that is short enough gives its content.
- The header of a rule, `parse_rule`, the loader and the generator are mostly field checks and would only add easy members.
- Quoted-Printable, MIME part traversal, text codecs, URL and HTML decoding rest on Python libraries.
- HTTP and SMTP parsing, the detector, the network and transport parsers, the pipeline stages and the command line copy and classify fields.
