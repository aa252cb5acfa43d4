# The ingest path of the APRS-IS server, verified

This project models the path a packet takes through the server as one stack, and proves what each
layer and whole runs of the server guarantee.

- **Line framing** (`LineCodec`): the incremental decoder over a growing buffer, with its scan
  cursor and its dropping mode, gives the lines of a one-shot split however the socket chops the
  stream.
- **Packets and paths** (`Callsign`, `Packet`, `Path`, `Repeats`): the TNC2 line as its pieces,
  parsing as the inverse of rendering, and the hop iterator with the byte offsets that every
  rewrite cuts at.
- **The q construct algorithm** (`QConstruct`, `QSpec`, `QProperties`, `QRewrite`): the
  string-rewriting code refines its rules stated over callsigns; what one pass records,
  why a stamped path cannot return, and that repeated passes settle after two.
- **Duplicate window** (`DupeCheck`, `DupeHistory`, `Transmission`): a hash map and a ring of
  per-second buckets that answer as a plain scan of the whole history does.
- **Dispatch and fan-out** (`Fanout`, `Registry`, `Metrics`, `Dispatch`, `Server`, `DispatchRuns`,
  `DispatchClients`, `DispatchTask`): the server as mutable objects, refining a state machine over counters,
  duplicate state, positions and bounded client queues; safety and conservation over every run,
  what becomes of each submission (`DispatchVerdicts`) and whom each delivered line reaches
  (`DispatchDelivery`).
- **Filters, positions, configuration, passcodes** (`Filter`, `FilterLoops`, `FilterReading`, `FilterRoundTrip`,
  `PositionCache`, `Interval`, `IntervalRoundTrip`, `Tokenizer`, `Passcode`): printers and parsers
  that are each other's inverse, a cache independent of arrival order, and a closed form for the
  passcode loop.

Code that changes things step by step is a class or a method with a loop, proved against a
specification function; the laws are lemmas about those functions. Code that only computes is a
function.

## Conventions

- In the protocol modules a text is a `string` with one char per byte, so lengths and offsets are
  the byte lengths and offsets of the code. `Passcode` uses bytes as bit vectors. `Interval` and
  `Tokenizer` read Unicode characters.
- What the model leaves open is a parameter: the digest, UTF-8 validity, payload classification,
  which filters a packet hits, and how numbers are read and printed. Results about printing
  numbers require that a printed number reads back as itself and holds no slash or space
  (`FilterRoundTrip.Faithful`); the exactness of the duplicate verdict requires a collision-free
  digest.
- A run of the server mixes submissions with clients coming, going, changing filters and draining,
  and with evictions from the position cache at any point; the server itself calls no eviction.
- Time is an argument. Clients are visited in any order during a broadcast.
- The server's id and the login of a client are valid login callsigns, as configuration and login
  demand (`crates/aprsr-core/src/callsign.rs:69`, `crates/aprsr-config/src/lib.rs:260`).

## Where the code and its comments differ

The model follows the code.

- A re-parse of a rewritten line is called unreachable at `crates/aprsr-server/src/dispatch.rs:122`.
  It is reached when the rewritten path, longer by a construct appended or put in another's place,
  makes the line longer than 510 bytes, and only then (`QRewrite.FailsIffOutgrown`);
  `QRewrite.LongBeaconFails` gives such a line.
- The construct an outcome names is not always the one found in the path: a `,I` tail behind an
  older construct is rewritten without removing that one (`QProperties.OlderConstructKeepsLead`).
  `QProperties.EntryPointRecorded` gives the exact condition.
- Re-rendering drops a bare comma behind the destination, and nothing else
  (`Packet.RerenderIsIdentity`, `Packet.BareCommaLost`).
- A duplicate entry lives for ages 0 to `window` inclusive, so copies are at least window + 1
  seconds apart.
- The comment on `truncated_to` (`crates/aprsr-core/src/path.rs:150`) speaks of the hops from an
  index onward; the code returns the text in front of the offset.

## Model

| member | source | states |
|---|---|---|
| LineCodec.LineCodec.Decode | crates/aprsr-server/src/codec.rs:72-116 | A line returned is the first line the buffer means, and what stays buffered means the rest; none is returned only when the buffer completes no line, and then at most `maxLength` bytes stay buffered, none while dropping. The loop terminates. |
| LineCodec.LineCodec.DropStep | crates/aprsr-server/src/codec.rs:83-95 | While an over-long line is dropped the meaning of the buffer does not change, and the buffer shrinks or is empty. |
| LineCodec.LineCodec.TakeLine | crates/aprsr-server/src/codec.rs:97-103 | The complete line split off is the first line the buffer meant. |
| LineCodec.LineCodec.DecodeEof | crates/aprsr-server/src/codec.rs:118-129 | At the end of the stream: the complete lines one by one, then the unterminated one, then nothing, with the buffer empty. |
| LineCodec.DrainAppend | crates/aprsr-server/src/codec.rs:72-116 | Reading a stream in two pieces means what reading it at once means: for every cut, the second piece goes on from the bytes and the dropping flag the first left. |
| LineCodec.ReadStream | crates/aprsr-server/src/codec.rs:72-144 | However a stream is chopped into reads, draining the decoder after each read and at the end yields the lines of a one-shot split at LF; and when the stream is lines written with CR LF or LF, perhaps an unended one behind them, it yields the text of each, or that it is over-long or no UTF-8. |
| LineCodec.WrittenIsHeard | crates/aprsr-server/src/codec.rs:96-144 | What was written is what is read: each line its text, without the CR LF or LF it was ended with, unless it is over-long or no UTF-8. |
| LineCodec.EndingsStripped | crates/aprsr-server/src/codec.rs:139-144 | One CR in front of the LF is taken off, not more: a text ended with CR LF reads as the text, and ended with CR CR LF as the text and a CR. |
| LineCodec.DrainBuffer | crates/aprsr-server/src/codec.rs:72-116 | Decoding until nothing comes returns exactly the lines the buffer meant, in order, and keeps the buffer bound. |
| LineCodec.DrainIsOneShot | crates/aprsr-server/src/codec.rs:72-129 | The decoder's account of a whole stream is the one-shot split: one line per LF-terminated segment, one more for a non-empty tail, each over-long segment giving exactly one oversized mark. |
| LineCodec.SegmentsJoin | crates/aprsr-server/src/codec.rs:72-129 | The reference split loses nothing: segments hold no LF and, joined by LF, are the stream. |
| Callsign.Validate | crates/aprsr-core/src/callsign.rs:120-157 | The validation loop gives the verdict of the scan specification, error for error. |
| Callsign.ValidationIsExact | crates/aprsr-core/src/callsign.rs:120-157 | Accepted with separator `s` exactly when the text is 1 to 9 bytes, all uppercase alphanumeric but for one `-` at `s`, with a base in front and an SSID of one or two bytes behind. |
| Callsign.ValidIsPlain | crates/aprsr-core/src/callsign.rs:128-144 | No byte of a valid callsign can be taken for framing. |
| Callsign.RefusedAt | crates/aprsr-core/src/callsign.rs:129-144 | The first character that does not fit decides how a text of at most nine bytes is refused: a second `-`, one at the start, or an invalid character. |
| Callsign.RefusedByLength | crates/aprsr-core/src/callsign.rs:121-154 | Empty, over-long, and a missing or over-long SSID are refused with the named error. |
| Packet.RefusedControl | crates/aprsr-core/src/packet.rs:82-84 | A line with a control byte other than tab is refused with the first of them. |
| Packet.RefusedLength | crates/aprsr-core/src/packet.rs:74-79 | An empty line and one beyond 510 bytes are refused with the named error. |
| Packet.RefusedColonless | crates/aprsr-core/src/packet.rs:86-93 | So are a line without `:` and one with nothing behind its first. |
| Packet.RefusedAtColon | crates/aprsr-core/src/packet.rs:86-107 | And a header without `>`. |
| Packet.RefusedNames | crates/aprsr-core/src/packet.rs:109-120 | A bad source is reported before a bad destination, each with its own error. |
| Packet.Render | crates/aprsr-core/src/packet.rs:174-188 | Rendering piece by piece gives source, `>`, destination, the path behind a comma if there is one, `:`, payload. |
| Packet.ParsePieces | crates/aprsr-core/src/packet.rs:73-130 | Parsing inverts rendering: for any colon-free, control-free path, the rendered line parses to the same source, destination, payload and that path, unless it is longer than 510 bytes, which is the only error. |
| Packet.ParseSplitsLine | crates/aprsr-core/src/packet.rs:73-130 | A parsed line is its pieces: valid callsigns, the first `:` and the payload behind it, the header as source, `>`, destination and path. |
| Packet.RerenderIsIdentity | crates/aprsr-core/src/packet.rs:174-188 | Rendering with the path as parsed gives the line back byte for byte, if and only if the line did not hold a bare comma behind the destination; that comma is all that is lost. |
| Packet.BareCommaLost | crates/aprsr-core/src/packet.rs:101-107 | The excepted case happens: `N0CALL>APRS,:x` parses with an empty path and renders without its comma. |
| Path.HopsRefineSplit | crates/aprsr-core/src/path.rs:52-81 | The hop list holds exactly the maximal comma-free fields that keep a callsign once one trailing `*` is stripped, each with its byte offset, at strictly increasing offsets. |
| Path.HopIter.NextField | crates/aprsr-core/src/path.rs:55-79 | One turn of the closure: one field of the path with its offset, the cursor behind it, and the hops still to come shortened by it. |
| Path.HopIter.Next | crates/aprsr-core/src/path.rs:55-80 | The iterator hands out the hops one by one, left to right, and then none. |
| Path.HopsSplit | crates/aprsr-core/src/path.rs:67-70 | A comma separates: the hops of `a,…` are the hops of `a` followed by those of the text behind the comma. |
| Path.CutAtHop | crates/aprsr-core/src/path.rs:152-155 | Cutting the path at the offset of hop `i` leaves exactly hops 0 to `i`, and the text from that offset on holds the others. |
| Path.FindIConstruct | crates/aprsr-core/src/path.rs:114-128 | The loop over the hops finds the second-to-last hop exactly when the last is a literal `I`. |
| Path.FindFirstDuplicate | crates/aprsr-core/src/path.rs:136-148 | Collecting the station hops and searching them gives the first repeated station of the whole hop list, routing aliases ignored. |
| Path.AliasIs | crates/aprsr-core/src/path.rs:158-173 | A routing alias is RELAY, ECHO, GATE, TCPIP or TCPXX, or WIDE, TRACE, SS or SAR with a digit at least and then the end or a `-`; letter case aside. |
| Path.DuplicateFreeIffDistinct | crates/aprsr-core/src/path.rs:131-148 | No duplicate is reported exactly when the non-alias hops are pairwise distinct, letter case aside. |
| Path.DuplicateIsEarliest | crates/aprsr-core/src/path.rs:136-148 | The hop reported repeats an earlier one, and no hop before it does. |
| Repeats.FindRepeat | crates/aprsr-core/src/path.rs:138-147 | The search loop returns the first element that is the same as an earlier one. |
| Repeats.FilterFirst | crates/aprsr-core/src/path.rs:137-137 | Leaving out the elements that are the same as nothing beforehand does not change which repeat is found. |
| QConstruct.CodesRoundTrip | crates/aprsr-core/src/qconstruct.rs:52-83 | The ten wire forms and the codes correspond one to one. |
| QConstruct.FindConstruct | crates/aprsr-core/src/qconstruct.rs:104-116 | The loop finds the first hop that is a q construct, its offset, and the call behind it. |
| QConstruct.RewriteIConstruct | crates/aprsr-core/src/qconstruct.rs:314-321 | Popping the last two offsets and replacing there cuts the path at the second-to-last hop. |
| QConstruct.Apply | crates/aprsr-core/src/qconstruct.rs:180-263 | The algorithm over the mutable iterator computes the specification function, refusals included, for every path and context. |
| QSpec.ApplyRefinesSpec | crates/aprsr-core/src/qconstruct.rs:160-263 | The string rewriting refines the same rules stated over the list of callsigns: it refuses exactly the packets they refuse, and an accepted path reads as the callsigns they give, under the construct they name. |
| QSpec.RefusalRefinesSpec | crates/aprsr-core/src/qconstruct.rs:184-205 | A packet is refused exactly when its callsigns hold `qAZ` first, `qAC` first without a TCPIP marker, this server behind the construct, or a repeated station. |
| QSpec.ConstructReason | crates/aprsr-core/src/qconstruct.rs:185-199 | Which refusal a construct earns, and in which order they are tried. |
| QSpec.RepeatReason | crates/aprsr-core/src/qconstruct.rs:201-205 | A repeated station is the refusal when nothing about the construct is, and names the first hop that repeats one. |
| QProperties.EntryPointRecorded | crates/aprsr-core/src/qconstruct.rs:180-263 | After an accepted pass a construct other than `qAZ` is found; it is the one the outcome names, if and only if the `,I` rule does not apply, or no construct stands in front of the IGate, or that construct is already qAR (the IGate is the logged-in station) or qAr (it is not). |
| QProperties.OlderConstructKeepsLead | crates/aprsr-core/src/qconstruct.rs:223-230 | The excepted case happens: on `qAS,X2,I` the outcome says qAR or qAr while the path still reads `qAS` first. |
| QProperties.IRuleRecordsIgate | crates/aprsr-core/src/qconstruct.rs:222-230 | Under the `,I` rule with no construct in front, the construct found is the outcome's and the call on record is the IGate as a hop reads back; qAR exactly when it is the logged-in station. |
| QProperties.RewriteRecordsEntryCall | crates/aprsr-core/src/qconstruct.rs:207-263 | A rewrite outside the `,I` rule leaves the hops before the construct unchanged, and exactly one q hop, followed by the intended call and nothing else; both are what `find` reports. |
| QProperties.ReentryRejected | crates/aprsr-core/src/qconstruct.rs:185-200 | A path stamped with this server's own id is refused when it returns, from any sender in any context, as long as the stamped callsigns are a prefix of the returning ones; the refusal is named. |
| QProperties.AppendedHopsKeepPrefix | crates/aprsr-core/src/qconstruct.rs:185-200 | Text appended behind a comma keeps the stamped callsigns as a prefix, so it cannot get a stamped path past the refusal. |
| QProperties.TwoPassesSettle | crates/aprsr-core/src/qconstruct.rs:180-263 | Under a fixed context, when two passes in a row are accepted a third is refused or returns the identical path, not rewritten. |
| QProperties.PassesConverge | crates/aprsr-core/src/qconstruct.rs:180-263 | However many passes are accepted, the path after the second never changes again. |
| QRewrite.RewriteIsPathText | crates/aprsr-core/src/qconstruct.rs:273-321 | The algorithm turns a colon-free, control-free path into one. |
| QRewrite.RewrittenReparses | crates/aprsr-server/src/dispatch.rs:113-126 | The line sent on re-parses to the same source, destination and payload with the rewritten path; it fails exactly when it exceeds 510 bytes, and then it was rewritten. |
| QRewrite.FailsIffOutgrown | crates/aprsr-server/src/dispatch.rs:113-126 | Stated before the call: the re-parse fails exactly when a guard of a rewriting rule holds and the submitted line, less the path bytes the rule displaces, plus the construct and the callsign it names, exceeds 510 bytes. |
| QRewrite.AppendOutgrows | crates/aprsr-server/src/dispatch.rs:113-126 | So with no construct in the path, outside the `,I` rule and without a bare comma, it fails exactly when the submitted line plus five bytes plus the entry callsign exceeds 510 bytes. |
| QRewrite.LongBeaconFails | crates/aprsr-server/src/dispatch.rs:119-126 | Such a line exists: a 510-byte beacon from a verified client passes the first parse and the q algorithm, and fails the second parse. |
| DupeCheck.DupeCheck.constructor | crates/aprsr-core/src/dupecheck.rs:51-65 | A fresh checker has seen nothing and keeps a window of at least one second. |
| DupeCheck.DupeCheck.CheckDigest | crates/aprsr-core/src/dupecheck.rs:116-131 | For any sequence of calls, the map and the ring answer as a plain scan of all admissions does, jumps and backward clocks included; a repeat admits and refreshes nothing; `checked` and `duplicates` agree with the account; the buckets hold the map's keys exactly once, by second. |
| DupeCheck.DupeCheck.AdvanceTo | crates/aprsr-core/src/dupecheck.rs:134-166 | Advancing keeps precisely the entries no older than the window, never moves back, and keeps the ring in order. |
| DupeCheck.DupeCheck.DrainBucket | crates/aprsr-core/src/dupecheck.rs:153-162 | Draining a bucket empties it and forgets its digests, and no others. |
| DupeCheck.DupeCheck.ClearAll | crates/aprsr-core/src/dupecheck.rs:142-147 | When the whole window has turned over nothing survives. |
| DupeCheck.SlotsDistinct | crates/aprsr-core/src/dupecheck.rs:168-171 | Within one turn of the ring two different seconds never share a bucket. |
| DupeCheck.DropBucket | crates/aprsr-core/src/dupecheck.rs:152-163 | Emptying the bucket of a second removes exactly the entries filed under it and leaves the rest filed. |
| DupeCheck.FileDigest | crates/aprsr-core/src/dupecheck.rs:125-129 | Filing a new digest under the current second keeps map and buckets in agreement. |
| DupeHistory.ClockNeverRewinds | crates/aprsr-core/src/dupecheck.rs:133-137 | The time a call is judged at is the running maximum of the clock. |
| DupeHistory.DuplicateIffTwin | crates/aprsr-core/src/dupecheck.rs:116-131 | A call is a duplicate exactly when an earlier call with its digest was admitted at most `window` seconds of effective time before. |
| DupeHistory.AdmissionsApart | crates/aprsr-core/src/dupecheck.rs:116-131 | Two admissions of one digest are at least window + 1 seconds apart. |
| Transmission.TrimTakesSpaces | crates/aprsr-core/src/dupecheck.rs:102-102 | What is cut off a payload is a sequence of UTF-8 encodings of white-space characters, each listed by its code point, and nothing else. |
| Transmission.TrimLeavesNone | crates/aprsr-core/src/dupecheck.rs:102-102 | And none is left: a trimmed payload does not end in the encoding of one. |
| Transmission.SpacesAgree | crates/aprsr-core/src/dupecheck.rs:102-102 | The listed code points are the Unicode White_Space characters that the configuration modules trim by. |
| Transmission.KeyIdentifies | crates/aprsr-core/src/dupecheck.rs:98-104 | Two packets have equal keys exactly when source and destination are equal and so are the payloads, white space at their ends aside. |
| Transmission.UnpaddedIdentify | crates/aprsr-core/src/dupecheck.rs:98-104 | When neither payload ends in white space the keys are equal exactly when source, destination and payload are. |
| Transmission.PaddingIgnored | crates/aprsr-core/src/dupecheck.rs:98-104 | A copy padded with white space of any kind is the same transmission. |
| Registry.Client.SetFilter | crates/aprsr-server/src/registry.rs:66-77 | Replaces the filter chain unless it is locked, and nothing else. |
| Registry.Client.TrySend | crates/aprsr-server/src/registry.rs:86-88 | Queues the line exactly when the queue is open and has room. |
| Registry.Client.AcceptsPacket | crates/aprsr-server/src/registry.rs:220-241 | A full feed takes everything, submission and diagnostic ports nothing, an IGate port what its chain passes. |
| Registry.ClientRegistry.Insert | crates/aprsr-server/src/registry.rs:121-140 | Adds one client under a fresh id; every other client and all totals stay. |
| Registry.ClientRegistry.Remove | crates/aprsr-server/src/registry.rs:143-145 | Disconnects the client with that id, returning it, and touches nothing else. |
| Registry.ClientRegistry.OfferTo | crates/aprsr-server/src/registry.rs:200-214 | One recipient: queued and counted sent with its bytes, or counted dropped, for the client and in total alike. |
| Registry.ClientRegistry.Broadcast | crates/aprsr-server/src/registry.rs:184-216 | In whatever order the clients are visited, the registry ends as one fan-out step: every connected client but the originator gets its turn once, and the totals grow by the sums. |
| Fanout.RunKeepsInv | crates/aprsr-server/src/registry.rs:184-216 | After any run of insert, remove, set_filter, broadcast, drain and close: queues never exceed capacity, drained plus queued is what was queued, counters agree with the log, and the totals are the sums over all clients. |
| Fanout.AcceptedIsSentPlusDropped | crates/aprsr-server/src/registry.rs:204-214 | Over any run, the lines accepted by all clients are those sent plus those dropped. |
| Fanout.LogIsAccepted | crates/aprsr-server/src/registry.rs:195-214 | The log kept for a client is the sequence of lines its filter accepted over the run. |
| Fanout.DeliveredInOrder | crates/aprsr-server/src/registry.rs:204-214 | Over any run, what a client has drained plus what it has queued is an in-order subsequence of the lines accepted for it; what is missing was dropped. |
| Fanout.AcceptedFromOthers | crates/aprsr-server/src/registry.rs:195-202 | Over any run, the lines offered to a client and accepted by its filter come, one by one and in order, from broadcasts made while it was connected and not on its behalf. |
| Fanout.NoEcho | crates/aprsr-server/src/registry.rs:197-214 | Over any run, what a client has drained plus what it has queued was broadcast, line by line and in this order, on behalf of others and while the client was connected. |
| Fanout.LockedFilterStays | crates/aprsr-server/src/registry.rs:66-69 | A locked filter is the same at every later point of a run. |
| Fanout.DrainTakes | crates/aprsr-server/src/client.rs:308-327 | A drain takes lines off the front of the queue, as many as asked for and there are, and loses none. |
| Fanout.BroadcastSums | crates/aprsr-server/src/registry.rs:204-214 | What the clients' counters gain in a broadcast is what the server-wide counters gain. |
| Server.ServerState.constructor | crates/aprsr-server/src/lib.rs:116-126 | A new server has counted nothing, knows no position and has no client. |
| Server.ServerState.Process | crates/aprsr-server/src/dispatch.rs:70-152 | The server, with its mutable counters, checker, cache and registry, moves as the step function says: same verdict, same new state, for every ingest and time. |
| Server.ServerState.Connect | crates/aprsr-server/src/client.rs:204-219 | Registering a client is one insert step of the server; nothing else changes. |
| Server.ServerState.Disconnect | crates/aprsr-server/src/client.rs:156-156 | Removing a client is one remove step. |
| Server.ServerState.SetFilter | crates/aprsr-server/src/client.rs:451-451 | A filter command is one filter step, without effect on a locked port. |
| Server.ServerState.Drain | crates/aprsr-server/src/client.rs:308-327 | The writer takes lines off the front of the queue, and that is one drain step. |
| Server.ServerState.CloseReceiver | crates/aprsr-server/src/client.rs:308-320 | A writer gone is one close step. |
| Server.ServerState.Sweep | crates/aprsr-store/src/lib.rs:358-365 | An eviction drops the stale positions and nothing else. |
| Server.ServerState.Relay | crates/aprsr-server/src/dispatch.rs:97-151 | From the q algorithm on: refused, too long once rewritten, or recorded and fanned out. |
| Server.ServerState.Deliver | crates/aprsr-server/src/dispatch.rs:128-146 | The position is recorded before the line is offered, and both happen to exactly that packet. |
| DispatchTask.Start | crates/aprsr-server/src/dispatch.rs:163-168 | A fresh server and a fresh duplicate checker stand at the beginning of every run, with a window of at least one second. |
| DispatchTask.Serve | crates/aprsr-server/src/dispatch.rs:167-174 | The task loop leaves the server where the run of all its events leaves it, from the start or from any point of a run. |
| DispatchTask.Play | crates/aprsr-server/src/dispatch.rs:70-174 | From the start through any events, submissions, client actions and evictions mixed, the mutable server ends where the run of those events ends and has given every submission the verdict the run gives it; so every theorem about runs holds of the server. |
| DispatchTask.CountersAgree | crates/aprsr-server/src/dispatch.rs:92-95 | Wherever the server stands, its duplicate counter is the checker's, and what the checker checked plus the unverified plus the malformed lines is what was received. |
| DispatchRuns.CountersBalance | crates/aprsr-server/src/dispatch.rs:76-151 | Over every run: received = unverified + invalid + duplicate + rejected + delivered; duplicates + admissions = checks; checks + unverified + malformed lines = received. |
| DispatchRuns.CountersAreTally | crates/aprsr-server/src/dispatch.rs:76-151 | After every run each counter is exactly the number of submissions that got its verdict, and the bytes received are those of all submitted lines with their CR/LF. |
| DispatchRuns.UnverifiedDoNotMatter | crates/aprsr-server/src/dispatch.rs:79-82 | Striking out every unverified submission from a run leaves its duplicate account, positions, queues and the counters of invalid, duplicate and rejected packets as they are. |
| DispatchRuns.OtherVerdictsStay | crates/aprsr-server/src/dispatch.rs:79-82 | Nor does it change the verdict on any other event. |
| DispatchRuns.DeliveredIsSame | crates/aprsr-server/src/dispatch.rs:113-126 | A delivered line is a packet of the same source, destination and payload as the line submitted. |
| DispatchRuns.LatestIsGreatest | crates/aprsr-core/src/dupecheck.rs:133-137 | The time an event is judged at is the greatest submission time of the verified, well-formed lines up to it: no such time exceeds it, and it is zero or one of them. |
| DispatchRuns.ClockIsLatest | crates/aprsr-server/src/dispatch.rs:92-92 | The checker's clock in a run is that time, so `now` reaches the checker. |
| DispatchRuns.DeliveriesApart | crates/aprsr-server/src/dispatch.rs:92-151 | In any run, two delivered lines of equal source, destination and payload, white space at its end aside, are at least window + 1 seconds apart, by the greatest submission time so far. |
| DispatchRuns.DuplicateIffAdmittedTwin | crates/aprsr-server/src/dispatch.rs:92-95 | With a collision-free digest, a packet is called a duplicate exactly when an earlier one of the same source, destination and payload, white space at its end aside, was admitted within the window, by the greatest submission time so far. |
| DispatchRuns.ExpiredIsNoDuplicate | crates/aprsr-server/src/dispatch.rs:92-95 | With a collision-free digest, a packet submitted more than `window` seconds after every admission of its transmission is no duplicate. |
| DispatchRuns.DifferentIsNoDuplicate | crates/aprsr-core/src/dupecheck.rs:98-104 | Nor is a packet whose payload does not end in white space, when no earlier one had that source, destination and payload. |
| DispatchRuns.DeliveredIsStamped | crates/aprsr-server/src/dispatch.rs:97-151 | In any run, a delivered line parses, carries the path and the code the q algorithm gave it for this server and this client, and holds a construct other than `qAZ`. |
| DispatchVerdicts.RefusedAtOnce | crates/aprsr-server/src/dispatch.rs:79-90 | Unverified submissions and malformed lines are refused with the named verdict. |
| DispatchVerdicts.NewPacket | crates/aprsr-server/src/dispatch.rs:97-151 | A packet that is no duplicate gets the verdict the q algorithm calls for under this server, this login, its transport and its port: refused, sent on, or too long once rewritten. |
| DispatchVerdicts.OwnBeacon | crates/aprsr-core/src/qconstruct.rs:256-262 | In any run, a new packet of the client's own, with no construct, repeated station or `,I` tail in its path, goes out with `qAC` and this server behind its path, on a send-only port with `qAO`; unless that makes the line longer than 510 bytes. |
| DispatchVerdicts.RelayedBeacon | crates/aprsr-core/src/qconstruct.rs:234-248 | In any run, a new packet of another station, its path likewise bare, goes out with `qAO` and the client's login. |
| DispatchVerdicts.UdpBeacon | crates/aprsr-core/src/qconstruct.rs:207-210 | In any run, a new packet with no construct and no repeated station, submitted over UDP, goes out with `qAU` and this server. |
| DispatchVerdicts.UdpIsMarked | crates/aprsr-core/src/qconstruct.rs:207-210 | Whatever its path held, what a submission over UDP delivers ends in `qAU` and this server. |
| DispatchVerdicts.LoopedIsRejected | crates/aprsr-core/src/qconstruct.rs:192-199 | In any run, a new packet with this server's name behind a construct is rejected. |
| DispatchVerdicts.PositionIsKnown | crates/aprsr-server/src/dispatch.rs:130-137 | A delivered position is on record at once with the time of submission, held to 63 bits, unless the station has a newer one. |
| DispatchRuns.PositionsAreReports | crates/aprsr-server/src/dispatch.rs:128-137 | In any run, the position cache is the replay of the position reports in the delivered lines and of the sweeps, in order; so last-writer-wins holds for the server. |
| DispatchClients.RosterIsFanOutRun | crates/aprsr-server/src/dispatch.rs:139-146 | What the clients see of a server run is a run of the fan-out machine that broadcasts exactly the delivered lines. |
| DispatchClients.ClientsConserve | crates/aprsr-server/src/dispatch.rs:139-146 | So the fan-out guarantees hold over every run of the server. |
| DispatchClients.ClientSeesDeliveries | crates/aprsr-server/src/dispatch.rs:139-151 | In any run, what a client has drained plus what it has queued was delivered, line by line and in this order, by submissions of others. |
| DispatchClients.NoClientSeesTwins | crates/aprsr-server/src/dispatch.rs:92-151 | In any run, no client is sent two lines of equal source, destination and trimmed payload unless they were delivered at least window + 1 seconds apart. |
| DispatchDelivery.DeliveryReaches | crates/aprsr-server/src/registry.rs:195-241 | In any run, a delivered line reaches every connected client but its sender: a full feed always, an IGate client exactly when a filter of its chain hits the packet and no negated one does, given every position known by then, the packet's own included; it is queued when the writer is there with room, and else counted dropped. Nobody else changes. |
| DispatchDelivery.OnlyDeliveriesReach | crates/aprsr-server/src/dispatch.rs:79-126 | A submission that is not delivered reaches nobody. |
| DispatchDelivery.SilentPortsGetNothing | crates/aprsr-server/src/registry.rs:229-230 | In no run does a client of a submission or diagnostic port get, or lose, a line. |
| DispatchDelivery.ClientJoins | crates/aprsr-server/src/registry.rs:121-140 | A client starts connected and open under the next id, with the filters it brought, nothing queued and nothing counted. |
| DispatchDelivery.RegistrationStays | crates/aprsr-server/src/registry.rs:66-77 | At any later point of a run a client is what it registered as; its filter is the last one set, unless its port forces one; its queue is open until the writer goes, and it is connected until it is removed. |
| Filter.ParseChain | crates/aprsr-core/src/filter/mod.rs:402-428 | The loop over the words, with its running counts, builds the specified chain or stops at the specified first error. |
| Filter.Matches | crates/aprsr-core/src/filter/mod.rs:451-462 | A packet passes exactly when some filter hits it and no negated filter does, wherever it stands. |
| Filter.SplitJoin | crates/aprsr-core/src/filter/mod.rs:170-172 | Splitting undoes joining, for parts without the separator. |
| FilterReading.WordsAre | crates/aprsr-core/src/filter/mod.rs:406-406 | The words of an expression are exactly its longest stretches without tab, line feed, form feed, carriage return or space. |
| FilterReading.ChainReads | crates/aprsr-core/src/filter/mod.rs:402-428 | An expression is accepted, one entry a word in order, when all its words are filters, at most 64 and at most nine of them areas; otherwise the first word that breaks this gives the error. |
| FilterReading.NamesRead | crates/aprsr-core/src/filter/mod.rs:579-595 | A list filter holds exactly the names given that are not empty, in order and upper-cased; no name, or more than 64 fields, is the named error. |
| FilterReading.NumbersRead | crates/aprsr-core/src/filter/mod.rs:643-668 | A range, area or distance filter holds the numbers of its fields in their order when all are in bounds; otherwise the first field that is not gives the error. |
| FilterReading.FieldsCounted | crates/aprsr-core/src/filter/mod.rs:567-577 | A wrong number of fields is reported with the number expected. |
| FilterReading.ConstructRead | crates/aprsr-core/src/filter/mod.rs:215-227 | A construct filter takes one or two fields, and asks for IGate positions exactly when the second holds an `I`. |
| FilterReading.CallsRead | crates/aprsr-core/src/filter/mod.rs:234-240 | The callsign of a friend, or of a station to be near, is upper-cased; a distance that is no positive number gives the error. |
| FilterReading.UnknownRead | crates/aprsr-core/src/filter/mod.rs:241-243 | A code other than the fourteen letters is reported as unknown. |
| FilterReading.MinusRead | crates/aprsr-core/src/filter/mod.rs:410-424 | A leading `-` negates the filter behind it; alone it is an empty filter. |
| FilterReading.CategoriesKnown | crates/aprsr-core/src/filter/mod.rs:605-615 | A category list is accepted exactly when every letter is one of `poimqstunw`, in either case. |
| FilterReading.CategoriesRead | crates/aprsr-core/src/filter/mod.rs:605-615 | It names exactly the categories whose letters occur. |
| FilterLoops.ReadTypes | crates/aprsr-core/src/filter/mod.rs:605-615 | The letter loop accumulates the set of categories named, or finds an unknown letter. |
| FilterLoops.PrintFilter | crates/aprsr-core/src/filter/mod.rs:468-547 | Printing field by field gives the specified text. |
| FilterLoops.PrintChain | crates/aprsr-core/src/filter/mod.rs:551-562 | Printing entry by entry gives the specified text, separators and negation marks included. |
| FilterRoundTrip.RenderParses | crates/aprsr-core/src/filter/mod.rs:465-563 | A canonical filter prints as one word, not beginning with `-`, that parses to that very filter. |
| FilterRoundTrip.ParsedIsCanonical | crates/aprsr-core/src/filter/mod.rs:169-245 | Every filter that parses is canonical: bounds kept, names upper-cased and non-empty, numbers printable. |
| FilterRoundTrip.ChainRoundTrip | crates/aprsr-core/src/filter/mod.rs:402-428 | Every chain the parser returns renders to an expression that parses back to an equal chain, the limits of 64 filters, 64 entries and 9 areas included. |
| FilterRoundTrip.OrderIrrelevant | crates/aprsr-core/src/filter/mod.rs:446-462 | Reordering the filters of a chain never changes its verdict. |
| PositionCache.PositionCache.Record | crates/aprsr-store/src/lib.rs:298-327 | An older report never overwrites a newer one; anything else is stored under the upper-cased callsign. |
| PositionCache.PositionCache.PositionOf | crates/aprsr-store/src/lib.rs:369-373 | Looks a station up, letter case aside. |
| PositionCache.PositionCache.EvictOlderThan | crates/aprsr-store/src/lib.rs:358-365 | Exactly the stations not heard since go, and their number is returned. |
| PositionCache.LastWriterWins | crates/aprsr-store/src/lib.rs:294-327 | After any sequence of records and evictions that asked for nothing newer, the cache holds the last-arriving report among those with the greatest `heard_at`. |
| PositionCache.KnownIffReported | crates/aprsr-store/src/lib.rs:298-327 | Without evictions a station is found exactly when it was reported. |
| PositionCache.LookupFindsNewest | crates/aprsr-store/src/lib.rs:298-373 | Without evictions, a lookup finds the last of the newest reports under that callsign in any letter case, and nothing exactly when there is none. |
| PositionCache.EvictionForgets | crates/aprsr-store/src/lib.rs:358-365 | An eviction takes from every lookup what was heard before it, and nothing else. |
| PositionCache.ArrivalOrderIrrelevant | crates/aprsr-store/src/lib.rs:294-327 | With distinct timestamps per station, any two orders of arrival end in the same cache. |
| Interval.Parse | crates/aprsr-config/src/duration.rs:53-111 | The loop over the characters, with checked arithmetic, computes the specification, error for error. |
| IntervalRoundTrip.ScanReadable | crates/aprsr-config/src/duration.rs:67-102 | Scanning a readable text gives the sum of number times unit and the number still pending, or overflow exactly when one of them exceeds 64 bits. |
| IntervalRoundTrip.AcceptedIffTerms | crates/aprsr-config/src/duration.rs:64-110 | A unit string is accepted with value `v` exactly when it is a list of numbers with units whose sum of products is `v`, and `v` fits in 64 bits. |
| IntervalRoundTrip.OverflowIffTooLarge | crates/aprsr-config/src/duration.rs:70-101 | Overflow is reported exactly when the sum or the pending number of some readable prefix really exceeds 64 bits. |
| IntervalRoundTrip.IntervalAccepted | crates/aprsr-config/src/duration.rs:53-111 | A whole input is accepted with value `v` exactly when, trimmed, it is not empty and is a bare number `v`, with or without a `+`, or a list of terms of that sum, and `v` fits in 64 bits. |
| IntervalRoundTrip.IntervalOverflows | crates/aprsr-config/src/duration.rs:53-111 | A whole input overflows exactly when some readable prefix of it, trimmed, exceeds 64 bits. |
| IntervalRoundTrip.LongNumberOverflows | crates/aprsr-config/src/duration.rs:59-76 | A bare number beyond 64 bits is read on as a unit string and reported as overflow. |
| IntervalRoundTrip.UnitsAre | crates/aprsr-config/src/duration.rs:80-84 | The units are d, h, m and s in either case, worth 86400, 3600, 60 and 1 seconds. |
| IntervalRoundTrip.CharacterAtFault | crates/aprsr-config/src/duration.rs:80-95 | Behind a readable prefix in range, a character that is neither digit nor unit is reported, in lower case, and a unit without a number as a missing number. |
| IntervalRoundTrip.NumberLeftOver | crates/aprsr-config/src/duration.rs:104-108 | A number without a unit behind other terms, or alone where no bare number is read, is a trailing number. |
| IntervalRoundTrip.TrimSplits | crates/aprsr-config/src/duration.rs:54-54 | Trimming removes the white space at both ends and nothing else. |
| IntervalRoundTrip.Render | crates/aprsr-config/src/duration.rs:116-138 | The printing loop gives the specified units, largest first. |
| IntervalRoundTrip.RenderIs | crates/aprsr-config/src/duration.rs:116-138 | The printed form is the days, hours, minutes and seconds, each as often as it fits in what the larger ones leave and left out at zero; zero itself is `0s`. |
| IntervalRoundTrip.DecimalIsShort | crates/aprsr-config/src/duration.rs:132-132 | No number is printed with a leading zero. |
| IntervalRoundTrip.RenderParses | crates/aprsr-config/src/duration.rs:53-138 | For every 64-bit value, parsing the rendered form succeeds and returns the value. |
| Tokenizer.Tokenize | crates/aprsr-config/src/aprsc.rs:395-431 | The loop over the characters computes the state machine's tokens, or reports the unterminated quote. |
| Tokenizer.LineRoundTrip | crates/aprsr-config/src/aprsc.rs:395-431 | A line of tokens, each of any quoted and bare pieces run together, with any white space between and around them, tokenizes to those tokens. |
| Tokenizer.OddQuotesRefused | crates/aprsr-config/src/aprsc.rs:401-425 | A line without a comment is refused, with its line number, exactly when it holds an odd number of quotes. |
| Tokenizer.CommentStarts | crates/aprsr-config/src/aprsc.rs:409-409 | A comment starts at the first `#` behind an even number of quotes, and all from there on does not matter. |
| Tokenizer.QuotedRoundTrip | crates/aprsr-config/src/aprsc.rs:392-431 | Every list of quote-free tokens, with spaces, `#` and empty tokens, written in quotes on one line, is read back, with or without a comment. |
| Tokenizer.CommentIgnored | crates/aprsr-config/src/aprsc.rs:409-409 | A comment behind a separating space changes nothing. |
| Passcode.Generate | crates/aprsr-core/src/passcode.rs:45-61 | The loop computes the closed form: the seed, its high byte XORed by the even-position bytes and its low byte by the odd-position ones, upper-cased, masked to 15 bits. |
| Passcode.Verify | crates/aprsr-core/src/passcode.rs:65-73 | Receive-only for -1, verified for the passcode of the callsign, invalid for anything else. |
| Passcode.OwnPasscodeVerifies | crates/aprsr-core/src/passcode.rs:65-73 | The passcode of every callsign has 15 bits; it, and no other code, verifies for it; -1 alone is receive-only. |
| Passcode.PairsAdd | crates/aprsr-core/src/passcode.rs:48-60 | The code is 29666, XORed for each pair of bytes with 256 times the first and the second, upper-cased, within 15 bits. |
| Passcode.KnownPasscodes | crates/aprsr-core/src/passcode.rs:82-88 | The known passcodes of W1AW and K1A, 25988 and 31187. |
| Passcode.KnownPasscode | crates/aprsr-core/src/passcode.rs:82-102 | The known passcode of N0CALL, 13023, in lower case and with any SSID. |
| Passcode.SsidIgnored | crates/aprsr-core/src/passcode.rs:43-46 | The SSID does not matter. |
| Passcode.CaseIgnored | crates/aprsr-core/src/passcode.rs:43-56 | Nor does letter case. |
| Passcode.OrderWithinClassIgnored | crates/aprsr-core/src/passcode.rs:50-58 | Nor does the order of the bytes within the even or the odd positions. |

## Left out

- Sockets, tasks, timers, shutdown, the `max_clients` cap and the login exchange: input, output and scheduling.
- Counters bumped outside the ingest path; they are no part of the balance proved here.
- Payload classification, position decoding and great-circle distances: parameters of the model.
- Which packets a single filter hits, callsign patterns among them (`crates/aprsr-core/src/filter/mod.rs:249`): a parameter of the model, so `Filter.Matches` and fan-out hold for any such relation.
- The SQL store, the configuration files beyond intervals and lines of tokens, the web pages and the command line: library plumbing and presentation.
- Poisoned locks: every lock in the model is taken.
- `PositionCache` snapshots and reloading from the database: they only copy entries.
- DupeCheck.DupeCheck.constructor: 64-bit saturation of window + 1 is not modelled; numbers there are unbounded.
- Server.ServerState.Process: counters are unbounded, where the code's wrap at 64 bits.
- Filter.ParseChain: numbers are exact reals, where the code uses floating point; a number is whatever the given reader yields, and always finite.
