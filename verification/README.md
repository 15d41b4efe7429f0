# A verified model of osdp-go

osdp-go implements SIA OSDP v2.2.2 (IEC 60839-11-5): a control panel polls readers over a shared line, and a secure
channel may run over that line. This project models its protocol cores in Dafny and proves what they keep.

| files | what they model |
|---|---|
| `Octets`, `Check`, `Frames` | octets, the CRC and the checksum, and the frame codec |
| `Scanner` | the resynchronising buffers of both ends, against a pure parser of the stream |
| `Cipher`, `Session`, `SecureSession` | padding, CBC and MAC over any invertible block cipher; session values and the session object |
| `Messages`, `Status` | codes and payloads; contact reports |
| `Panel`, `PanelRuns`, `BusDevice` | one device as the panel sees it: its steps, its runs, and the object updated in place |
| `Reader`, `ReaderRuns`, `ReaderQueue`, `ReaderDevice` | the peripheral device: its steps, its runs, and the object updated in place |
| `Link`, `LinkRuns`, `Agreement`, `AgreementRuns` | both ends over a line that loses commands and replies |
| `Limits`, `Timeouts` | exactly when an answer stands for a command carried out, runs in which it does not, and readers that time the panel out |
| `LinkObjects` | the two device objects on one line |
| `Lockstep`, `Retransmission`, `ChannelRuns`, `ChannelEnds` | the secure channel end to end, its losses, and what keeps or ends it |
| `KeyInstalls`, `TwoInstalls`, `Handlers` | key installs over the channel, one or several at a time; a handler that imitates the handshake |
| `Size`, `SizeRuns` | the octets of a composed command, and one that outgrows the device's buffer |
| `Names`, `EventLog`, `MemoryStore`, `EventWalks` | resource names and page tokens, the event log and its paging, the ring buffer, and a client paging through it |

The panel's and the reader's devices appear twice. `Panel` and `Reader` hold each step as a function of the device
record; `BusDevice` and `ReaderDevice` are classes with the fields of the originals, and each method is proved to be
the step of the same name. The table below leaves out the smaller of these methods. The theorems about runs are stated
over the steps, and `Drive` carries them over to the objects: it runs any sequence of operations on one object of each
class and proves that they go through exactly the run of the link.

## The line

An exchange is one call of `Next`, followed by the reply or by silence, as `internal/panel/cycle.go` drives it. A command
or a reply is delivered within its own exchange or never. A command is known by its place in submission order, and takes
effect when the reader dispatches it and does not answer osdp_BUSY.

`ExactlyOnce`, `HandshakeAgreement` and `KeyAgreement` are about runs from two fresh ends in which:

- the panel does not start over (its number never returns to zero); `CarriedOutAgain` is a run in which it does and a
  command is carried out twice;
- two freshly numbered commands in a row are never both lost outbound; `TwoLostPolls` is a run in which they are and a
  command is counted as answered without being carried out;
- a reader that enforces strict numbering and missed the last fresh command is not sent an application command in the
  clear; `OneLostPollToAStrictReader` is a run in which it is, and the refusal is counted as an answer;
- the reader does not time the panel out, and both run the same suite; `ExactlyOnceOnTime` covers a reader with a
  time-out as long as no silence exceeds it, and `CarriedOutAfterSilence` is a run in which one does;
- the application's handler answers with none of the four replies that steer the panel (osdp_PDID, osdp_PDCAP,
  osdp_CCRYPT, osdp_RMAC_I); `ImitatedCryptogram` is a run in which it does, and a refusal is counted as an answer;
- no tag is forged and no cryptogram is accepted under another key: a reader whose chain differs from the panel's does
  not verify its command, and a panel on another key than the reader's does not recognise its cryptogram.

Any number of key installs may be outstanding. `KeyAgreement` says which key each end then holds: they hold the same one
when one key is handed in at a time (`KeysInStep`), and `FirstTakenForSecond` is a run in which two are and they do not.

`CountedExactly` gives, without these conditions, exactly when an answer counted in the clear stands for a command
carried out. `NoCommandTakesEffectTwice` needs only the first of them and a reader that does not time the panel out.

On a secure channel an application command survives the loss of its reply (`SecureRetransmission`), but a poll is not
repeated: losing the reply to one poll puts the chains out of step (`UnrepeatedReplyLost`), and the next command that
gets through ends the channel (`OutOfStepEnds`). With any other losses the channel holds (`ChannelRun`) until a command
that gets through takes a key, identifies or moves the device, or is answered with a handshake reply (`ChannelStep`).

## Where the code and its comments differ

The model follows the code.

- A resync is said to restart the exchange at sequence zero and so to tell the device to forget
  (`internal/bus/sequence.go:29-30`). The panel never emits zero: the next command after a resync is numbered 1
  (`EmissionsNumbered`).
- Clearing an outstanding key install is described as the answer to a device that declines the key
  (`internal/bus/keyset.go:143-148`). Any osdp_NAK clears it, whichever command it refuses, while the key set stays
  queued. `RefusalForgetsTheKey` is a run in which the reader then holds a key the panel does not know of;
  `KeyInstallAnnounced` says exactly when an install is announced.
- A key is said not to go out once the channel is gone (`internal/bus/keyset.go:33-42`, `internal/bus/outbox.go:57-64`).
  What is tested is the session and not the state. A capability report received on the channel can leave the device
  online with the session still established, and then a key goes out in the clear (`KeyAfterReport`; `KeySetTravels` and
  `ReportOverTheChannel` give the exact conditions).
- A scanned frame is said to be valid until the next call (`internal/panel/reader.go:43-45`). Its payload aliases the
  buffer, which is shifted before the frame is returned, so it may already hold other octets. `NextCommand` and
  `NextReply` state the exact condition; `SecondFrameTakesItsPlace` is an input at which the payload of one frame has
  become that of the next.
- An install is announced when its key set is acknowledged (`internal/bus/keyset.go:46-53`). Only the code of the command
  acknowledged is compared, so with two installs outstanding the acknowledgement of the first announces the second
  (`FirstTakenForSecond`), and the key set of the second then blocks the queue for good (`TwoInstallsBlock`).
- An oversized command is said to be refused where it is submitted (`internal/bus/size.go:48-49`).
  `AcceptedExactlyWhenItFits` gives the exact condition under which one gets through, and `OutgrowsTheBuffer` the input.

## Model

| member | source | states |
|---|---|---|
| AgreementRuns.ExactlyOnce | internal/pd/handle.go:78-124 | Over every run of submissions, key installs, local events and exchanges with losses, from two fresh ends until the panel starts over: what the reader carried out are the commands answered, each with the payload it was handed in with, each once and in submission order, followed at most by the one whose answer is outstanding; what is not answered is what is queued. For readers strict or not and on any key, under the conditions listed above. |
| Links.NoCommandTakesEffectTwice | internal/bus/outbox.go:82-126 | At most once, with no bound on losses: whatever is lost and however often a command is repeated, until the panel starts over effects follow submission order without repetition, each carries the code of the command accepted at its place, and each belongs to a command already answered or to the head of the queue. |
| LinkObjects.Drive | internal/panel/cycle.go:24-117 | Two device objects made fresh and driven through any operations go through the run of the link, so under the conditions of ExactlyOnce the commands handed in and not in the panel object's outbox were each carried out once, as handed in and in order. |
| LinkObjects.Line.Exchange | internal/panel/cycle.go:24-117 | One exchange on the two objects, with any loss, is the exchange of the link: Next, Handle, and Reply or Timeout. |
| LinkObjects.Line.Await | internal/panel/cycle.go:61-117 | The panel object takes a reply, and counts silence for none and for one it cannot attribute. |
| LinkObjects.Line.Perform | internal/panel/cycle.go:24-117 | Every operation on the two objects is the step of the same name on the link, and no session is ever shared. |
| AgreementRuns.ExchangeAgreed | internal/panel/cycle.go:61-117 | One exchange, in any phase of the link and with any loss, keeps everything the two ends have in common, and what the panel announces is true of the reader. |
| AgreementRuns.RunAgreed | internal/panel/cycle.go:24-117 | The same over every run: numbering, keys, sessions and effects stay in agreement. |
| AgreementRuns.HandshakeAgreement | internal/bus/secure.go:120-134 | Whenever the panel announces a secure channel, however often the handshake was lost and restarted, the reader's session is established with the same keys and the same reply chain, and both command chains are zero. |
| AgreementRuns.HandshakeSucceeds | internal/secure/handshake.go:18-158 | From any agreed state about to challenge a reader on the panel's key, two exchanges that get through establish the channel at both ends. |
| AgreementRuns.HandshakeOnAnotherKey | internal/secure/handshake.go:63-97 | From such a state with a reader on another key, one exchange that gets through ends the handshake: the panel is online without a channel and will not try again, and neither end holds an established session. |
| AgreementRuns.KeyAgreement | internal/bus/keyset.go:126-161 | Whenever the panel announces an installed key, neither end holds the old session, the reader holds the key of the key set it answered and the panel the key it awaited, whatever acknowledgements were lost and repeated and however many installs were outstanding. So the two hold one key exactly when the key set at the head of the queue hands over the key awaited. |
| AgreementRuns.KeysInStep | internal/bus/keyset.go:64-73 | On every run in which no second key is handed in while another is outstanding, each announced install leaves the two ends with the same key. |
| AgreementRuns.ExchangeEnds | internal/bus/reply.go:35-197 | An exchange in each of the five device states leaves the two ends in a state that matches the panel's. |
| AgreementRuns.ExchangeCounted | internal/bus/outbox.go:82-88 | Whatever the panel takes as the answer to a command is the answer to a command that was carried out as it was handed in. |
| AgreementRuns.ExchangeOwesKey | internal/pd/sealed.go:114-153 | An acknowledgement of a key set waiting to be repeated belongs to the key the reader now holds, which is the one the key set hands over. |
| AgreementRuns.ExchangeElsewhere | internal/pd/handle.go:146-148 | A reader that has moved to another address hears nothing and nothing is counted as answered. |
| Limits.CountedExactly | internal/pd/handle.go:78-124 | Without a channel, a command that is counted as answered was carried out, payload and all, exactly when the reader held no answer under its number, held no established session, and did not insist on another number; otherwise nothing was. For strict readers and readers that time out as well. |
| Limits.OneLostPollToAStrictReader | internal/pd/handle.go:183-190 | A run from two fresh ends: one poll is lost, and the command submitted next is refused by a strict reader with a sequence error, counted as answered and never carried out. |
| Limits.TwoLostPolls | internal/bus/outbox.go:107-113 | A run from two fresh ends: two polls are lost in a row, and the command submitted next is answered from the reader's cache, counted as answered and never carried out. |
| Timeouts.ExactlyOnceOnTime | internal/pd/handle.go:161-166 | Exactly once for a reader with any communication time-out, on every run in which no command that gets through breaks a silence longer than the time-out. |
| Timeouts.RunUntimed | internal/pd/handle.go:161-166 | On such a run the two ends go through exactly the states they would go through with a reader that never times the panel out. |
| Timeouts.CarriedOutAfterSilence | internal/pd/handle.go:161-166 | A run from two fresh ends: the reply to an osdp_OUT is lost and the repeat breaks too long a silence; the reader has emptied its cache and carries the command out a second time. |
| Limits.CarriedOutAgain | internal/bus/sequence.go:31-45 | A run from two fresh ends: three replies to an osdp_OUT are lost, the panel starts over, and the reader carries the same command out a second time under a new number. |
| Limits.StaleAnswer | internal/pd/handle.go:104-111 | A fresh command that meets its own number in the cache is counted as answered and is not carried out. |
| Limits.StrictRefusal | internal/pd/handle.go:183-190 | A strict reader that missed a number refuses the next command, and the panel counts the refusal as an answer. |
| Limits.PollLost | internal/bus/timeout.go:19-38 | A poll lost on the way out is not repeated: it takes a fresh number with it and changes nothing else. |
| Handlers.ImitatedCryptogram | internal/bus/secure.go:98-113 | From any idle channel in step: the application's handler answers a command with osdp_CCRYPT, the panel gives the channel up while the reader keeps its session, and the next command is refused in the clear, counted as answered and never carried out. |
| Handlers.RefusedInClear | internal/pd/dispatch.go:25-47 | A command in the clear to a reader with an established session is refused, counted as answered, and has no effect. |
| Agreement.PlainExchange | internal/bus/reply.go:53-90 | An exchange without a channel keeps the reader without an established session, or starts a handshake on the key the panel has for it. |
| Agreement.StuckExchange | internal/bus/reply.go:62-72 | A panel that kept its session but went back to identifying hears nothing until it starts over. |
| Agreement.ChallengeExchange | internal/bus/secure.go:71-113 | A challenge, lost or answered, keeps the handshake sound; one that gets through in its turn leaves the cryptogram the reader expects when the reader is on the panel's key, and ends the handshake when it is on another. |
| Agreement.CryptogramExchange | internal/pd/handshake.go:91-107 | A server cryptogram that gets through in its turn always makes the panel secure, and then both sessions hold the same keys and reply chain. |
| Agreement.SecureExchange | internal/bus/compose.go:26-55 | An exchange on the channel keeps a reader with a session on the panel's key; an announced install means that the reader took the key of the key set answered and the panel the key it awaited. |
| Agreement.CryptogramAgrees | internal/secure/handshake.go:29-97 | The panel's session accepts what the reader's session answered to its challenge, and then both hold the same keys and randoms. |
| Agreement.RmacAgrees | internal/secure/handshake.go:103-158 | The reader accepts the panel's cryptogram and the panel the reader's initial MAC; both are established alike. |
| Agreement.SealedFresh | internal/pd/handshake.go:122-140 | A sealed command is refused in the clear without effect, or carried out and answered under seal; a key set carried out leaves exactly the key that was sent. |
| Agreement.AdmittedExactly | internal/pd/sealed.go:28-52 | Barring a forged tag, what the reader admits is exactly the command the panel chose. |
| Agreement.PerformedExactly | internal/pd/dispatch.go:25-47 | What the reader carries out of the application's is the head of the panel's queue, payload and all, in the clear and under seal. |
| Agreement.CryptogramRejected | internal/bus/secure.go:98-113 | A cryptogram made under another key ends the handshake and leaves the panel online without a session. |
| Agreement.TimelyExactly | internal/pd/handle.go:183-190 | A command is out of turn exactly for a strict reader that missed the freshly numbered command before it. |
| Agreement.Refused | internal/pd/handle.go:183-190 | Such a command is refused in the clear, the refusal is cached, and address, key and session stay as they were. |
| LinkRuns.NoStaleReplay | internal/pd/handle.go:104-111 | The reader answers from its cache exactly when the panel repeats a command that was processed. |
| LinkRuns.OutOfTurn | internal/pd/handle.go:183-190 | A strict reader answers a number out of turn with a sequence error under that number, caches it, and is otherwise untouched. |
| LinkRuns.ExchangeLag | internal/bus/sequence.go:16-27 | Over each exchange the reader's cached number is the panel's number, or the one before it when the last fresh command was lost. |
| LinkRuns.HandleFresh | internal/pd/cache.go:58-101 | A fresh command is answered, the answer is encoded and cached, and only then do a new address or key take effect. |
| LinkRuns.DispatchSteers | internal/pd/dispatch.go:56-117 | Only identity and capability requests are answered with replies that steer the panel's state. |
| LinkRuns.DispatchTurns | internal/bus/reply.go:93-197 | A reply that does not steer leaves state and channel alone, forgets a pending key, or installs it exactly when an acknowledgement of a key set was awaited. |
| LinkRuns.ConcludeTurns | internal/panel/cycle.go:61-117 | Short of starting over, an exchange leaves the panel where its reply handlers put it, or where the command left it when nothing was heard. |
| Links.ReplayedUntouched | internal/pd/handle.go:104-111 | A repeat is answered from the cache and changes nothing but the time it was seen. |
| Links.EffectIsCached | internal/pd/cache.go:85-89 | A command that takes effect leaves its answer in the cache under its own number. |
| Links.ConcludeRepeats | internal/bus/outbox.go:107-126 | An unanswered application command will be repeated under its own number, unless the device was busy or the panel starts over. |
| Links.ExchangeConserved | internal/bus/outbox.go:82-126 | Over any exchange, what is accepted and not answered stays what is queued. |
| Links.ExchangeEffects | internal/pd/handle.go:78-124 | One exchange carries out at most the head of the queue, and then its answer stays in the cache until the panel has it. |
| Retransmission.SecureRetransmission | internal/bus/compose.go:26-55 | On a channel in step, when a reply is lost: for as many further losses as stay below the offline threshold, every repeat is octet for octet the first frame, the reader is not touched again, and when one gets through the panel reads exactly the original answer and the chains agree. |
| Retransmission.CommandLostInStep | internal/secure/message.go:68-80 | A command lost on the way out leaves the next command verifiable. |
| Retransmission.DeliveredInStep | internal/bus/seal.go:35-78 | In an exchange that gets through in step the reader carries out exactly the command chosen, the panel reads exactly the answer given, and the two are in step again. |
| Retransmission.LossCounts | internal/bus/timeout.go:19-38 | Each loss on the channel is a miss, and the panel stays on it only below the offline threshold. |
| ChannelRuns.ChannelRun | internal/secure/message.go:23-108 | Over any run with anything queued meanwhile, key installs included, and any losses but that of a reply to a command that will not be repeated: as long as no command handled takes a key, steers the panel or moves it, the two sessions are in step or one repeat away from it, and in step after every exchange that gets through. |
| Retransmission.OrdinaryAnswer | internal/pd/dispatch.go:56-117 | No command but osdp_KEYSET, osdp_COMSET, osdp_ID and osdp_CAP takes a key, steers the panel or moves it, unless the application's handler does. |
| ChannelEnds.ChannelStep | internal/bus/reply.go:93-197 | Any exchange that gets through in step, for every command and every answer of the application: an address change starts the panel over at the new address, a key taken ends the reader's session, identification and capability reports take the panel off the channel or into a new handshake, a handshake reply makes it give the channel up, and every other answer keeps the two in step. The channel outlives the exchange exactly in the last case. |
| ChannelRuns.UnrepeatedReplyLost | internal/bus/outbox.go:107-113 | When the reply to a poll is lost on the channel, the panel's reply chain stays and the reader's moves on: they are in step exactly when the chain came out as it was. |
| ChannelRuns.OutOfStepEnds | internal/pd/handshake.go:122-140 | Out of step, the next command that gets through is refused without effect, the reader's session is gone and the panel starts over. |
| KeyInstalls.KeyInstallAnnounced | internal/bus/keyset.go:126-141 | A key set that gets through on a channel in step is taken by the reader, whoever queued it. An install is announced exactly when the panel awaits one; the panel then holds the key it awaited, and the two ends agree exactly when that is the key handed over. Otherwise the panel stays secure on the key it had. |
| TwoInstalls.FirstTakenForSecond | internal/bus/keyset.go:64-73 | From any idle channel in step: two installs with different keys and one exchange. The panel announces the second key while the reader holds the first. |
| TwoInstalls.TwoInstallsBlock | internal/bus/outbox.go:65-69 | Two more exchanges that get through, and, barring a mistaken cryptogram, the handshake on the second key has failed: whatever happens from then on, its key set stays at the head of the queue and no command is answered or carried out again. |
| TwoInstalls.BlockedForever | internal/bus/outbox.go:65-69 | A key set at the head of the queue of a panel that has given the channel up is withheld over every run, with everything behind it, whatever the line and the reader do. |
| KeyInstalls.RefusalForgetsTheKey | internal/bus/keyset.go:143-151 | From any idle channel in step: an osdp_OUT without entries and an install behind it. The reader refuses the first and takes the key; the panel forgets the install, announces nothing and keeps the key it had. |
| KeyInstalls.RefusedInStep | internal/bus/keyset.go:143-151 | A refusal on the channel keeps the two in step, releases the refused command, and forgets whatever install is outstanding. |
| Retransmission.ThroughTheWire | internal/pd/sealed.go:28-97 | Every message that fits a frame goes through composing, the octets of the line and opening unchanged, and so does its answer. |
| Retransmission.Recomposed | internal/bus/compose.go:26-55 | A sealed frame depends on the command, its number, the keys and the reply chain only, not on the command chain. |
| Retransmission.InStepHandled | internal/secure/message.go:45-108 | In step, a command opens to what was chosen and its answer reads as what was given, although opening follows the commit of the chain. |
| Retransmission.StillOwing | internal/pd/handle.go:104-111 | Further losses leave the repeated frame, the cached answer and the chains as they are. |
| Lockstep.CommandOpens | internal/pd/sealed.go:28-52 | A command sealed from one chain opens at an end with the same keys and chain to the very payload it was made from, and both command chains take the same value. |
| Lockstep.ReplyOpens | internal/bus/seal.go:61-78 | The same for a reply. |
| Lockstep.CommandAdmitted | internal/bus/compose.go:26-55 | The panel's next sealed command is admitted by a reader in step as exactly the command chosen. |
| Lockstep.ReplyRead | internal/pd/sealed.go:65-97 | The reader's sealed reply is read by the panel as exactly the message sealed, and both reply chains take the same value. |
| Lockstep.CoveredAlike | internal/bus/seal.go:35-48 | What the sender authenticates with room reserved for the tag is what the receiver verifies. |
| PanelRuns.CommandsConserved | internal/bus/outbox.go:23-126 | Over every run with any answers or none, the commands answered followed by those queued are the commands accepted, in submission order, and a pending repeat concerns the command last sent. |
| PanelRuns.EmissionsNumbered | internal/bus/sequence.go:16-27 | At any point of any run the next frame is numbered 1, 2 or 3, and answered, in flight and queued commands make up the accepted ones. |
| PanelRuns.KeysTravelSealed | internal/bus/outbox.go:65-69 | When identity and capability replies arrive only when asked for, Secure holds exactly when the session is established, and every key set is sealed, under SCS_17 whenever it carries a key. |
| PanelRuns.KeySetTravels | internal/bus/compose.go:65-97 | Without that assumption: a key set leaves in the clear exactly when the device is online while it still holds an established session. |
| PanelRuns.ReportOverTheChannel | internal/bus/secure.go:40-59 | A capability report that arrives on a secure channel moves the device off Secure, and leaves it online with the session established exactly when the bus would not open a channel on that report. |
| PanelRuns.KeyAfterReport | internal/bus/keyset.go:64-73 | The input at which a key leaves in the clear: a poll on the channel is answered with such a report and a key is installed next; the install is accepted and the next frame carries the key without a security block. |
| PanelRuns.ConcludeSettles | internal/bus/timeout.go:19-38 | An exchange releases the command in flight exactly when it was answered and the device was not busy. |
| PanelRuns.NextEmits | internal/bus/bus.go:119-138 | Every device with a valid address gets a frame that carries the chosen command under the number in use; a repeat re-sends the head of the queue under the number it had. |
| PanelRuns.ReplyIsDispatch | internal/bus/reply.go:35-90 | An accepted reply is dispatched on a device whose exchange is complete and whose session has moved on. |
| PanelRuns.DispatchQueue | internal/bus/busy.go:37-49 | Only a busy device and a move change the queue when a reply is dispatched. |
| PanelRuns.DispatchConsistent | internal/bus/secure.go:40-154 | Every reply keeps Secure with an established session, and SecureHandshake with a present, unestablished one. |
| PanelRuns.ComposeSealedCarries | internal/bus/compose.go:26-55 | A sealed command is enciphered, framed, authenticated over everything before the tag, and checked last. |
| ReaderRuns.HandleDiscipline | internal/pd/handle.go:78-124 | A command is answered exactly when it is a well-checked command addressed to the device; whatever arrives, the address stays below broadcast, nothing stays half adopted, and waiting reports are snapshots of the contacts as they stand. |
| ReaderRuns.EffectsFollowTheReply | internal/pd/cache.go:58-101 | The confirming reply comes from the old address under the session that carried the command; only osdp_COM announces a move and only a sealed, acknowledged key set changes the key. |
| ReaderRuns.HappenOrderly | internal/pd/status.go:35-91 | Whatever happens at the reader, waiting status reports equal the contacts as they stand, the queue keeps its bound and the exchange is untouched. |
| ReaderRuns.DispatchDiscipline | internal/pd/dispatch.go:56-117 | No command in the table touches address, key, session or cache, and none is answered with osdp_BUSY. |
| ReaderRuns.AnswerAdmitted | internal/pd/dispatch.go:25-47 | A command that is admitted is dispatched and answered in kind. |
| ReaderRuns.SealReplyCarries | internal/pd/sealed.go:65-97 | A sealed reply is enciphered, framed with room for the tag, authenticated and checked last. |
| ReaderQueue.CardReadsInOrder | internal/pd/report.go:102-126 | Over every run the card reads accepted are those reported, in order, followed by those waiting, and the queue stays within its bound. |
| ReaderQueue.CarriedIsAnswered | internal/pd/report.go:102-115 | The answer that takes a report off the queue is that report. |
| ReaderQueue.OutputsExact | internal/pd/control.go:37-68 | A refused osdp_OUT changes nothing; an accepted one, which is exactly a whole list of known outputs and actions, leaves every output as the last entry naming it says. |
| ReaderQueue.LastEntryWins | internal/pd/control.go:56-68 | Folding the entries of a payload gives each output the last word said about it. |
| Size.PredictedSizeExact | internal/bus/size.go:74-104 | The size predicted on submission is the number of octets of the composed frame exactly when the device has a session then if and only if the command goes out on a channel. |
| Size.AcceptedExactlyWhenItFits | internal/bus/size.go:54-65 | For every state at submission and every state at composition: a command is accepted although its frame will not fit the reported buffer exactly when it is submitted without a session and composed on the channel and the buffer lies between its two lengths, and refused although its frame would fit exactly in the reverse case. Otherwise it is accepted exactly when its frame fits. |
| SizeRuns.OutgrowsTheBuffer | internal/bus/size.go:54-65 | The input at which an oversized command gets through: it is submitted while the handshake is under way, accepted at its length in the clear, and composed on the channel as a frame longer than the device accepts. |
| Size.CarriedIntact | internal/frame/decode.go:43-108 | The octets of a composed frame decode to that frame whatever follows them. |
| Frames.DecodeThenEncode | internal/frame/decode.go:43-122 | Any frame decoded, a bad check included, re-encodes to exactly the octets it came from and is never refused. |
| Frames.EncodeThenDecode | internal/frame/encode.go:21-91 | A representable frame comes back from its octets, whatever follows them, exactly when its security flag matches its block and its check fits the scheme. |
| Frames.DecodedIsFaithful | internal/frame/decode.go:88-108 | Every decoded frame is one that can be carried back. |
| Frames.DecodeStable | internal/frame/decode.go:43-108 | Once the verdict is not a short buffer, more octets never change it. |
| Frames.Append | internal/frame/encode.go:21-60 | A frame is refused exactly when it is not representable, and otherwise occupies WireLen octets. |
| Frames.NewControlFields | internal/frame/control.go:58-82 | The control octet gives back the number modulo four, the scheme and the security flag it was made from. |
| Frames.SealedCheck | internal/frame/encode.go:95-108 | Sealing changes only the check and makes it match. |
| Check.ComputeCrc16 | internal/frame/check.go:46-65 | The table-free loop computes the remainder of the bit-by-bit division by 0x1021 from seed 0x1D0F. |
| Check.OctetStep | internal/frame/check.go:55-65 | The five folding lines on one octet are eight steps of the division. |
| Check.BurstDetected | internal/frame/check.go:46-65 | Two messages that differ within two adjacent octets at most share a CRC exactly when they are the same message. |
| Check.RemainderInjective | internal/frame/check.go:55-65 | Registers that differ stay different over any octets. |
| Check.ComputeChecksum | internal/frame/check.go:72-78 | The octets and their checksum add to zero modulo 256. |
| LineBuffers.LineBuffer.NextCommand | internal/pd/scan.go:65-128 | However reads split the octets, the frames returned are the next of the pure parser over the stream, and whenever the scanner gives up it has returned everything that parser finds. The payload of a returned frame lies at the slice's place in the stream, and the slice still holds it exactly when the octets shifted over it are the same. |
| LineBuffers.LineBuffer.NextReply | internal/panel/reader.go:51-113 | The same, payload slice included, for the panel's reader, which reports noise instead of passing over it. |
| LineBuffers.ChunkingIsInvisible | internal/pd/scan.go:65-128 | Two receivers at rest that were given the same octets have returned the same frames and hold the same number of octets. |
| LineBuffers.LineBuffer.Consume | internal/pd/scan.go:107-113 | Octets are dropped by shifting the rest to the front of the buffer in place. |
| LineBuffers.LineBuffer.Resync | internal/panel/reader.go:104-113 | Octets are dropped up to the next that could start a frame, or all of them. |
| LineBuffers.LineBuffer.Examine | internal/pd/scan.go:65-103 | One attempt to decode leaves the buffer alone, or consumes exactly the frame found and hands over its payload as NextCommand says. |
| LineBuffers.LineBuffer.Fill | internal/pd/scan.go:65-103 | Every read gets a non-empty slice, and what it delivers joins the octets held. |
| LineBuffers.LineBuffer.Discard | internal/pd/scan.go:65-103 | A full buffer that still asks for more is discarded whole, as the parser does. |
| LineBuffers.PayloadAfterShift | internal/panel/reader.go:51-100 | The payload slice handed over with a frame still holds the payload exactly when the octets shifted over it are the same octets. |
| LineBuffers.SecondFrameTakesItsPlace | internal/panel/reader.go:51-100 | Two frames of one layout held at once: when the first is handed over, its payload slice holds the payload of the second. |
| StreamParser.ScanFrom | internal/pd/scan.go:65-103 | Where the parser rests and what it passes on the way depend on the stream alone. |
| StreamParser.LookStable | internal/frame/decode.go:43-108 | Octets that arrive later do not change a move already made. |
| Cipher.OpenAfterSeal | internal/secure/crypt.go:18-56 | For any invertible block cipher, opening undoes sealing for every payload length. |
| Cipher.SealBuffer | internal/secure/crypt.go:18-37 | The in-place padded buffer enciphers to the sealed payload, whose length is the padded length. |
| Cipher.OpenBuffer | internal/secure/crypt.go:39-56 | Deciphering and stripping gives the payload, or says whether alignment or padding was wrong. |
| Cipher.Unpad | internal/secure/crypt.go:66-75 | A marker is found exactly when the octets end in one followed by zeros only, and it is that one. |
| Cipher.PaddedLen | internal/secure/crypt.go:59-59 | The next block boundary strictly above the payload. |
| Cipher.ComputeMac | internal/secure/mac.go:22-63 | The loop over one scratch block computes the recursive two-key CBC-MAC, padding only a short or empty last block. |
| Cipher.XorInto | internal/secure/mac.go:65-69 | The exclusive or of two blocks, in place. |
| Cipher.SessionKeysDiffer | internal/secure/aes128.go:39-57 | The three session keys are always three different keys. |
| Cipher.CryptogramsDiffer | internal/secure/aes128.go:61-70 | The two cryptograms are the same exactly when the two randoms are. |
| Sessions.AES128Lawful | internal/secure/aes128.go:17-80 | The mandated suite meets every law the sessions rely on, over any invertible block cipher. |
| SecureSessions.Session.AnswerChallenge | internal/secure/handshake.go:29-56 | The reader's half of CryptogramAgrees. |
| SecureSessions.Session.AnswerCryptogram | internal/secure/handshake.go:63-97 | The panel's half of CryptogramAgrees; a mismatch fails the session. |
| SecureSessions.Session.AnswerServerCryptogram | internal/secure/handshake.go:103-132 | The reader's half of RmacAgrees. |
| SecureSessions.Session.CompleteHandshake | internal/secure/handshake.go:136-158 | The panel's half of RmacAgrees. |
| SecureSessions.Session.Authenticate | internal/secure/message.go:68-80 | A tag over the frame, and the chain moved. |
| SecureSessions.Session.Verify | internal/secure/message.go:90-108 | The chain moves exactly when the tag matches. |
| BusDevices.Device.Resync | internal/bus/sequence.go:31-45 | The exchange starts over: command requeued, number zero, offline, session gone. |
| BusDevices.Device.HandshakeCommand | internal/bus/secure.go:71-90 | The step in hand, or a fresh challenge. |
| BusDevices.Device.OnCryptogram | internal/bus/secure.go:98-113 | The session answers, and the server cryptogram is pending. |
| BusDevices.Device.OnInitialRMAC | internal/bus/secure.go:120-134 | The session completes, and the device is secure. |
| BusDevices.Device.InstallKey | internal/bus/keyset.go:64-73 | Refused without a channel; otherwise queued, and the key is awaited. |
| BusDevices.Device.CommandFor | internal/bus/compose.go:65-97 | The command the state calls for, and its block. |
| BusDevices.Device.ComposeSealed | internal/bus/compose.go:34-54 | A command enciphered, framed, authenticated and checked. |
| BusDevices.Device.Next | internal/bus/bus.go:119-138 | The step whose frames NextEmits describes. |
| BusDevices.Device.Dispatch | internal/bus/reply.go:93-197 | Every reply code, as the run theorems take it. |
| BusDevices.Device.AcceptSealed | internal/bus/reply.go:62-72 | A reply on a session is opened before anything reads it, or the exchange starts over. |
| BusDevices.Device.Reply | internal/bus/reply.go:35-90 | The step of which conservation and agreement are proved. |
| BusDevices.Device.Timeout | internal/bus/timeout.go:19-38 | A miss repeats the command, and the third drops the device. |
| BusDevices.Device.Send | internal/bus/bus.go:88-94 | A command is queued exactly when it fits. |
| BusDevices.Bus.Next | internal/bus/bus.go:119-138 | The turn passes to the next device whatever comes of this one's, and only this one changes. |
| BusDevices.EveryDeviceGetsOneTurn | internal/bus/bus.go:119-126 | As many calls as there are devices give each exactly one turn, wherever they start. |
| ReaderDevices.NewDevice | internal/pd/device.go:101-124 | A device is made exactly for an address below broadcast and a valid configuration. |
| ReaderDevices.Device.Observe | internal/pd/handle.go:161-166 | A command after too long a silence starts the exchange over. |
| ReaderDevices.Device.ApplyOutputs | internal/pd/control.go:37-68 | Both loops together are the fold of OutputsExact, or change nothing. |
| ReaderDevices.Device.CheckEntries | internal/pd/control.go:42-52 | Every entry names a known output and a known action. |
| ReaderDevices.Device.WriteEntries | internal/pd/control.go:56-67 | The outputs are folded over the entries in place. |
| ReaderDevices.Device.Coalesce | internal/pd/report.go:137-145 | The first report of the same kind is replaced, or the report is queued. |
| ReaderDevices.Device.ContactStatus | internal/pd/status.go:121-127 | One octet per contact. |
| ReaderDevices.Device.Dispatch | internal/pd/dispatch.go:56-117 | The command table. |
| ReaderDevices.Device.AnswerEstablished | internal/pd/handshake.go:122-140 | A command is opened before it is dispatched, or the session is gone. |
| ReaderDevices.Device.AnswerSecure | internal/pd/handshake.go:28-49 | By block type. |
| ReaderDevices.Device.SealReply | internal/pd/sealed.go:65-97 | Sealed as SealReplyCarries says. |
| ReaderDevices.Device.Emit | internal/pd/cache.go:58-101 | The reply is built and cached, and then the effects apply. |
| ReaderDevices.Device.Handle | internal/pd/handle.go:78-124 | The step of which discipline and agreement are proved. |
| ReaderDevices.Device.ReportCardRead | internal/pd/report.go:44-65 | A short credential is refused; a whole one is queued. |
| ReaderDevices.Device.SetInput | internal/pd/status.go:35-51 | The contact moves and the report is a snapshot of all of them. |
| Status.ReplayHoldsTheTruth | internal/bus/status.go:32-61 | Over any run of reports of any width, a consumer that starts all inactive and applies every change returned holds exactly the state stored. |
| Status.FirstReportIsWhole | internal/bus/status.go:32-61 | The first report of a kind is returned whole, in order. |
| Status.LaterChangesFlip | internal/bus/status.go:49-54 | Once a kind is established an entry is returned exactly when it flips the contact it names. |
| Status.StatusBoard.StatusChanges | internal/bus/status.go:32-61 | The two loops over the map of contacts compute that report. |
| Status.StatusBoard.Lookup | internal/bus/status.go:69-75 | The stored state of a kind, once it was reported. |
| Messages.KeySetRoundTrip | internal/cmd/keyset.go:36-76 | The key put into a key set is the key read out of it, as a base key of the right type and length. |
| Messages.CapabilityRoundTrip | internal/cmd/capabilities.go:89-118 | A report appended parses to itself. |
| MemoryStores.MemoryStore.Append | protobuf/service/memory_write.go:23-71 | The log grows by one entry with a name of its own and the store holds the last entries of it; a refused append changes nothing. |
| MemoryStores.MemoryStore.Get | protobuf/service/memory_read.go:17-33 | An event is found exactly when its name is well formed and belongs to a held entry. |
| MemoryStores.MemoryStore.Search | protobuf/service/memory_read.go:121-126 | The binary search finds the first held entry at or above the bound. |
| MemoryStores.MemoryStore.Page | protobuf/service/memory_read.go:121-135 | Searching and walking back equals filtering the reversed held entries below the bound. |
| MemoryStores.MemoryStore.List | protobuf/service/memory_read.go:67-114 | The page and the token are those cut from the log; a token is honoured only under its own parent. |
| MemoryStores.MemoryStore.At | protobuf/service/memory_read.go:142-145 | The entry at a logical position is that of the held tail of the log. |
| MemoryStores.RingIndexWraps | protobuf/service/memory_read.go:142-145 | The remainder taken twice is the position counted back from the next slot, wrapped once at most. |
| MemoryStores.RingAppends | protobuf/service/memory_write.go:54-68 | Writing the next slot appends, over the oldest entry when the ring is full. |
| MemoryStores.NamesDiffer | protobuf/service/memory_write.go:54-56 | No two events ever share a name. |
| MemoryStores.NewMemoryStore | protobuf/service/memory.go:97-112 | A store is made exactly for a positive capacity. |
| EventLog.WalkDescends | protobuf/service/memory_read.go:67-114 | Following the tokens while events arrive yields strictly decreasing sequence numbers, no repeats, and nothing newer than the first call. |
| EventLog.WalkComplete | protobuf/service/memory_read.go:67-114 | A matching event held at the first call is collected exactly when it was not evicted before its page was cut. |
| EventLog.WalkEnds | protobuf/service/memory_read.go:67-114 | The walk ends within as many pages as there were events at the start, however many arrive. |
| EventWalks.Collect | protobuf/service/memory_read.go:67-114 | A client that hands each token back to List while Append stores more collects entries newest first and none twice; one stored before the first page is among them exactly when it was held when its page was cut; and there are no more pages than entries at the start. |
| EventWalks.Follow | protobuf/service/memory_read.go:67-114 | The events returned page by page are those of the walk over the log, and the listing ends exactly when the walk does. |
| EventLog.TokenExactlyWhenMore | protobuf/service/memory_read.go:95-108 | There is a token exactly when an older matching event is held. |
| EventLog.PageExact | protobuf/service/memory_read.go:121-135 | A page is matching entries below the bound, newest first, no more than asked for, down to where the next begins. |
| EventLog.HeldExactly | protobuf/service/memory_write.go:60-66 | An entry is held exactly while fewer than the capacity came after it. |
| Names.EventNameExact | protobuf/service/name.go:48-72 | The names accepted are exactly those of the pattern, read back as the identifiers they were made from. |
| Names.ParentExact | protobuf/service/name.go:81-90 | The parents accepted are exactly those of the pattern, the wildcard included. |
| Names.CursorRoundTrip | protobuf/service/pagination.go:31-66 | A token is read back under its own parent to the number it was cut at, and refused under any other. |
| Names.HexInjective | protobuf/service/memory_write.go:56-56 | Fixed-width identifiers of different numbers differ. |

## Left out

- AgreementRuns.ExactlyOnce: stated for runs without a forged tag or a mistaken cryptogram, which an abstract cipher cannot exclude; a reader that times the panel out is covered by Timeouts.ExactlyOnceOnTime.
- AgreementRuns.KeyAgreement: stated for runs without a forged tag, since a key the reader opens from another chain could be any key.
- MemoryStores.MemoryStore.Append: stated below the largest 64-bit sequence number; the counter's wrap-around after 2^64 events, when names would be reused, is not modelled.
- EventWalks.Collect: assumes the same of all the events that arrive while the client pages.
- EventWalks.Follow: the same.
- Cipher.PaddedLen: the mask of the original is written as division and multiplication.
- Names.CursorRoundTrip: the base64 of a page token is left out; a token is its raw text, or garbled.
- AES, constant-time comparison and the zeroing of keys: the block cipher is any function with an inverse, and comparison is equality.
- Errors of a cipher suite: the suite is modelled as total functions, as the mandated one is for keys of the right size.
- BusDevices.Device.HandshakeCommand: with neither a pending step nor a session the original would fault; the model gives the handshake up. The state is never reached.
- The payloads of events, the identity record, the time a device was last seen, and telemetry.
- Clocks, randoms and the application's command handler: each arrives with the call that uses it.
- Locks, goroutines, ports, deadlines and the run loops of both ends; only the order of calls they impose is modelled.
- Command builders for LEDs, buzzers, text and outputs, SetCommunication, the provider registry, the event service's status mapping, and generated code: short or table-driven.
- Uniqueness of addresses after osdp_COM: the bus follows whatever the reply says, so the code does not keep it.
