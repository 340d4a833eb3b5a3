# A verified model of a trucking dispatch backend

The project models the parts of the backend where several pieces of state have to agree over time, and proves
what they keep over every run.

- **Sessions and refresh tokens** (`Redis`, `Sessions`, `SessionProofs`, `SessionEffects`,
  `AuthService`). Five families of expiring
  keys, written by hand by login, rotation, logout and invalidate-all. `Redis` gives the meaning of the commands on
  one family of keys, `Sessions` each request as one atomic step, `AuthService` the requests command by command.
- **One-time codes** (`Otp`, `OtpProofs`, `OtpSendProofs`, `OtpSendTight`, `OtpGuessRate`, `OtpHistory`,
  `OtpResets`, `TtlRounding`, `OtpService`). A code, its try counter, the send limiter and the single-use "ok" key, in the three
  instances for password reset, sign-up and driver login.
- **Stops and the derived work state** (`Stops`, `Reorder`, `StopRuns`, `StopEffects`, `StopService`). Two-phase renumbering under a
  UNIQUE constraint that is checked at every UPDATE, and a stored state that has to agree with its derivation.
- **The delivery order workflow** (`DeliveryOrders`, `OrderEffects`, `DeliveryOrderService`). A transition graph driven by hand, an
  automatic derivation from the legs, the hold and cancel overlay, and the drivers' answers to offers.
- **The Markdown converter** (`Lines`, `Cdata`, `InlineMarkup`, `InlineProofs`, `Scanner`, `Markdown`,
  `MarkdownLines`, `Converter`, `PageTokens`, `PageReader`, `PageBlocks`). The block scanner, the inline rewriting, and
  a reader that recovers every block from the page (character data sections as in section 2.7 of XML 1.0).
- **Driver pages and sums** (`Earnings`, `Settlements`, `CursorWalk`, `DriverPages`) and **driver rates**
  (`DriverRates`): cursor walks, sums over legs, months and weeks, and a soft-deleting table that refines a map.

Where the source changes state step by step, the model is a class or a method with loops, proved to do exactly what
the step function beside it says; the laws are then proved of the step functions over all runs. A run is any
sequence of events, including the passing of time. The modules named Effects, History, Lines and Blocks say what the
step functions and the converter do without naming them: in terms of keys, rows, events of the run, and lines.

Some results say when the code does *not* do what one would expect of it:

- A password reset does not ask for the code. `request_password_reset` returns the request id to its caller, and
  `confirm_password_reset` compares only that id; the code need never be given (`UnverifiedReset`). Of the three flows
  only the reset is like this (`RightCodeNeeded`), and what it does ask for is stated exactly (`ResetPassesIff`).
- More than one session can live on a device. It happens exactly in the runs with a stale logout, one that presents
  a token of a session that a later login on the device has replaced (`OnePerDeviceIffNoStaleLogout`); a run of that
  kind is given in `TwoSessionsOnDevice`.
- A driver's code is not used up by a verification: while it lives, one request id gives any number of logins
  (`DriverIdReused`), whereas a sign-up or a password reset happens at most once per id (`ConsumedOnce`).
- A walk over settlements with a status filter shows every match exactly if no page's worth of rows without a match
  comes before one (`FilteredWalk`); otherwise it ends early (`GapWitness`).
- Renumbering that names no stop twice succeeds exactly if the targets are distinct and free and no parking number,
  from -10000 down, is in the way (`ReorderableIffTargetsFit`); since requests may ask for any number, a stop can
  hold one and block it (`ParkingBlocked`). With positive numbers the targets alone decide (`OrdinaryReorder`). In one
  pass a plain swap would always fail (`SwapNeedsTwoPhases`).
- The status of a delivery order differs from the one computed from its legs exactly after certain events, until it
  is mended (`StepAgreement`, `DisagreementTraced`).
- Inline marks that overlap give tags that do not nest (`TripleMarksOverlap`), but never lose text (`InlineKeepsText`).
- The send bound rests on requests at whole seconds. On Redis' clock of milliseconds a refusal (for resets and
  sign-ups) moves the end of the window unless whole seconds remain (`RefusalMovesWindow`), and refusals in quick
  succession shorten it (`HammeringShortens`).

Two comments of the source differ from its code, and the model follows the code. The send limit is called rolling
(src/auth/service.py:501), but windows are fixed, so the bound over any stretch is one less than twice the limit, and
it is reached (`SendBound`, `SendBoundReached`). The rule for the dispatch status (src/delivery_order/state_derive.py:6-9)
speaks of active legs as those pending or assigned; the code counts every leg that is not deleted.

## Model

| member | source | states |
|---|---|---|
| AuthService.AuthService.LoginUser | src/auth/service.py:227-318 | A login without a device id fails and changes nothing; any other does exactly the login step and returns the two tokens signed at that moment. |
| AuthService.AuthService.EndPreviousSession | src/auth/service.py:247-267 | The session the device key names is deleted with its refresh token and taken off the list of the user now logging in, whoever owned it. |
| AuthService.AuthService.StoreSession | src/auth/service.py:269-312 | The new session's four keys are set with one expiry, and the user's list outlives it. |
| AuthService.AuthService.RotateToken | src/auth/service.py:83-124 | Succeeds iff the token is accepted, does exactly the rotation step, and names the first check a refused token fails, leaving everything unchanged. |
| AuthService.AuthService.Renew | src/auth/service.py:114-122 | Stores the new refresh token in place of the old one and extends the session, its device key and the user's list, each only if it is live. |
| AuthService.AuthService.Logout | src/auth/service.py:323-409 | Exactly the logout step: a verified bearer token of either kind comes before the web refresh cookie, and only a bearer token is blacklisted. |
| AuthService.AuthService.DeleteSession | src/auth/service.py:347-352 | Deletes the keys named by the token's claims, the device key included, whatever session it now names. |
| AuthService.AuthService.InvalidateAllUserSessions | src/auth/service.py:636-648 | Exactly the invalidate-all step: every listed session and the list itself are gone. |
| AuthService.AuthService.DeleteSessions | src/auth/service.py:642-648 | The loop deletes the session and refresh keys of all members and of no others. |
| SessionProofs.StepInv | src/auth/service.py:83-124 | Every request and every tick keeps the invariant that relates the key families, their expiries and the histories. |
| SessionProofs.RunInv | src/auth/service.py:227-409 | The invariant holds in every state of every run. |
| SessionProofs.ReachableListed | src/auth/service.py:304-312 | In every reachable state each live session has a live refresh key, and is listed in a live set of its user that expires no earlier than both. |
| SessionProofs.LoginSpends | src/auth/service.py:247-267 | A login ends exactly the refresh tokens of the session its device key named. |
| SessionProofs.InvalidateSpends | src/auth/service.py:636-648 | Right after invalidate-all the accepted refresh tokens are exactly those accepted before and not of that user. |
| SessionProofs.StepSpends | src/auth/service.py:99-122 | For each kind of event, a signed token is accepted after it iff it was before and the event is not the one way that kind ends it. |
| SessionProofs.AcceptedIffUnspent | src/auth/service.py:99-122 | Over every run a signed token is accepted at the end iff it was accepted at the start and no event ended it, so a spent token never comes back. |
| SessionProofs.RotationReplaces | src/auth/service.py:114-122 | After a renewing rotation the new token is the only one accepted for the session. |
| SessionProofs.LoginGrants | src/auth/service.py:269-312 | Both tokens of a login are accepted right after it, the access token iff its lifetime is positive. |
| SessionProofs.InvalidatedForever | src/auth/service.py:636-648 | No token a user held before invalidate-all is accepted in any later state, for rotation or as bearer. |
| SessionProofs.InvalidateStopsBearer | src/auth/tokens/bearer_token.py:47-116 | Invalidate-all ends the bearer tokens of the user at once, although device keys stay. |
| SessionProofs.BearerRefusedStep | src/auth/tokens/bearer_token.py:47-116 | No event makes a signed token acceptable again that is refused as a bearer token. |
| SessionProofs.BearerRefusedForever | src/auth/tokens/bearer_token.py:47-116 | A signed token once refused as a bearer token stays refused over every run. |
| SessionProofs.StepOnePerDevice | src/auth/service.py:340-352 | From a state with one session per device, an event keeps it iff it is not a stale logout. |
| SessionProofs.OnePerDeviceIffNoStaleLogout | src/auth/service.py:247-267 | A run has one live session per device, with equal expiries, in all its states iff it contains no stale logout. |
| SessionProofs.StaleLogoutKeepsSession | src/auth/service.py:347-352 | A stale logout removes the device key of the newer session but leaves its refresh token accepted. |
| SessionProofs.TwoSessionsOnDevice | src/auth/service.py:247-352 | Login, stale logout, login leaves the refresh tokens of both logins accepted on one device. |
| SessionProofs.RenewShape | src/auth/service.py:114-122 | A renewal stores the new refresh token, extends session and list to its expiry, and the device key if it is live; every other key is as before. |
| SessionEffects.LogoutByBearer | src/auth/service.py:337-360 | A usable bearer token of either kind ends its session for rotation and as bearer, deletes its device key and list entry and blocks the token id until it expires; everything else stays. |
| SessionEffects.LogoutByCookie | src/auth/service.py:364-388 | Without a usable bearer token, a web client's usable refresh cookie ends its session in the same way, and nothing is blocked. |
| SessionEffects.LogoutOtherwise | src/auth/service.py:323-409 | Any other logout changes nothing. |
| SessionEffects.LoginReplaces | src/auth/service.py:247-312 | The exact sessions, refresh tokens, device keys and signed tokens after a login: its own in the place of the one the device key named, all else as before. |
| SessionEffects.LoginLists | src/auth/service.py:263-311 | The exact lists: the new session joins its user's list and the replaced one leaves it. |
| SessionEffects.AccessOnly | src/auth/service.py:110-124 | A rotation that asks for no refresh token only signs an access token for the same user, session and device. |
| SessionEffects.InvalidateEnds | src/auth/service.py:636-648 | Every listed session and the list are gone, while device keys and everything of other users stay. |
| SessionEffects.LoginLifetimes | src/auth/service.py:269-312 | A login's refresh token is accepted for exactly REFRESH_TTL seconds and its access token for ACCESS_TTL, if the session lasts as long. |
| SessionEffects.RenewLifetimes | src/auth/service.py:110-122 | A renewal starts both anew; the access token is good only if the device still names the session. |
| OtpService.OtpService.IncreaseSendAndCheckLimit | src/auth/service.py:500-515 | Counts the request, refuses iff the count is over the limit, and tells a refused one exactly the seconds left; the three instances differ only in whether the expiry is set again. |
| OtpService.OtpService.RequestCode | src/auth/service.py:553-587 | An accepted request replaces the code and forgets its wrong guesses; a refused one changes only the counter. |
| OtpService.OtpService.CountWrongCode | src/auth/service.py:467-469 | The try counter goes up by one and, wherever the invariant holds, expires exactly with the stored code. |
| OtpService.OtpService.VerifyCode | src/auth/service.py:439-495 | Gives exactly the verdict of the first failing check; the last allowed wrong code deletes the code and its counter. |
| OtpService.OtpService.Use | src/auth/service.py:602-634 | A reset passes iff the stored code's id is the one given (and the account allows it), whether or not the code was ever verified; sign-up (750-762) and driver login (1002-1034) pass iff the ok key holds the id. What passed is used up. |
| OtpProofs.StepCodesOk | src/auth/service.py:423-495 | Every event keeps: a live try counter expires with the code it counts for, and stays below the limit. |
| OtpProofs.RunCodesOk | src/auth/service.py:423-634 | That holds in every state of every run. |
| OtpProofs.NeverExpired | src/auth/service.py:458-464 | With one clock the expiry test inside a verification never fires: the key is gone first. |
| OtpProofs.StepBudget | src/auth/service.py:466-483 | Each wrong guess takes one from what is left for its code, and no event gives any back. |
| OtpProofs.RunBudget | src/auth/service.py:466-483 | From any state of a run, the wrong guesses still to come for a code are at most what is left. |
| OtpProofs.GuessBound | src/auth/service.py:466-483 | Over every mix of requests, verifications, uses and waits, at most OTP_MAX_TRIES wrong codes are compared with one issued code. |
| OtpProofs.GuessBoundReached | src/auth/service.py:473-477 | Wrong guesses in a row reach the bound, and the last one deletes the code. |
| OtpProofs.OkKeyConserved | src/auth/service.py:977-979 | Between any two states of a run, uses plus a key left over never exceed successful verifications plus the key there was. |
| OtpProofs.StepCredit | src/auth/service.py:750-762 | A use takes away the one credit an id has, and no event gives it back (sign-up and reset). |
| OtpProofs.RunCredit | src/auth/service.py:750-762 | Over every run the uses under an id are at most its credit. |
| OtpProofs.ConsumedOnce | src/auth/service.py:750-762 | Each request id completes at most one sign-up, or one password reset (629-632). |
| OtpProofs.StoredCodeReused | src/auth/service.py:977-1030 | While a driver's code is stored, one id gives any number of logins, from any state. |
| OtpProofs.DriverIdReused | src/auth/service.py:917-1030 | So from the very start one driver request is enough for any number of logins. |
| OtpProofs.StepJustified | src/auth/service.py:492-495 | Every event keeps: each stored code was issued under its id, and each ok key follows a verification with that very code. |
| OtpProofs.RunJustified | src/auth/service.py:492-495 | That holds for every run and its history. |
| OtpProofs.PassesOnlyAfterRightCode | src/auth/service.py:750-756 | For the two flows with an ok key: a sign-up or driver login only passes under an id issued to that address and later verified there with the code sent under it. |
| OtpHistory.StoredStays | src/auth/service.py:439-490 | Nothing but a new request, time, use and guessing takes a stored code away. |
| OtpHistory.StandingIsStored | src/auth/service.py:570-579 | In every flow the code of the last accepted request, as long as it is not expired, used or guessed out, is stored as it was sent, with exactly its wrong guesses counted. |
| OtpHistory.StoredIsStanding | src/auth/service.py:570-579 | Conversely a live stored code is that of the last accepted request for its address, not expired, used or guessed out. |
| OtpHistory.VerdictExact | src/auth/service.py:439-495 | What every verification answers after every run, told by the run's events: not found, a mismatched id, the right code, or a wrong one with exactly the guesses still left (drivers 935-979 alike). |
| OtpHistory.ProvenIsStored | src/auth/service.py:492-495 | The id of the last successful verification is stored in the ok key for OTP_OK_TTL seconds, for sign-ups with the grace period added, unless used. |
| OtpHistory.StoredIsProven | src/auth/service.py:977-979 | Conversely a live ok key holds the id of the last successful verification, unused since. |
| OtpHistory.OkPassesIff | src/auth/service.py:750-762 | After every run a sign-up, or a driver's login (1002-1030) the account allows, passes under an id iff that is the id of the last successful verification at the address, recent enough, and no use has passed since. |
| OtpHistory.RightCodePasses | src/auth/service.py:706-762 | One request and its code are enough for a sign-up or a login to pass. |
| OtpResets.ResetNeedsNoCode | src/auth/service.py:602-618 | A reset passes right after its request, with nothing but the id the request returned. |
| OtpResets.UnverifiedReset | src/auth/service.py:587-618 | The run of that one request passes and contains no verification. |
| OtpResets.RightCodeNeeded | src/auth/service.py:602-634 | For every configuration: whatever passes in any run was verified before with the right code iff the flow is not the reset or nothing is ever sent. |
| OtpResets.ResetPassesIff | src/auth/service.py:602-634 | After every run a reset passes under an id iff the account allows it and the id is that of the last accepted request for the address, not expired, not used and not guessed out. |
| OtpSendProofs.CountedWindow | src/auth/service.py:500-505 | Counting opens a window only if none is open, and else leaves its end where it is. |
| OtpSendProofs.RefusalKeepsWindow | src/auth/service.py:506-509 | For requests at whole seconds, setting the remaining time again on a refusal never moves the end of a window. |
| OtpSendProofs.StepSendsOk | src/auth/service.py:500-515 | Every event keeps: each accepted send lies in its window, windows of an address are disjoint, and none holds more than the limit. |
| OtpSendProofs.RunSendsOk | src/auth/service.py:653-668 | That holds in every state of every run. |
| OtpSendProofs.SendBound | src/auth/service.py:500-515 | Over every run of requests at whole seconds, any half-open stretch of OTP_BLOCK_SEC seconds has at most twice the limit, less one, accepted sends to an address. |
| OtpSendProofs.SecondsLeftExact | src/auth/service.py:506-515 | A refused client that waits is accepted iff it waits at least the seconds it was told. |
| OtpSendTight.BurstAccepted | src/auth/service.py:500-515 | As long as the counter stays within the limit, every request of a burst is accepted and the window does not move. |
| OtpSendTight.SendBoundReached | src/auth/service.py:500-515 | For every limit from 1 on and every window of at least two seconds a run reaches the bound. |
| OtpGuessRate.StepLeft | src/auth/service.py:466-483 | A wrong guess takes one from the guesses an address has left, and only a new code gives any back. |
| OtpGuessRate.RunAhead | src/auth/service.py:439-579 | The wrong codes compared in a stretch are at most those the live code allows at its start plus one allowance for each send in it. |
| OtpGuessRate.GuessRateBound | src/auth/service.py:439-579 | Over every run, at most 2 * OTP_SEND_LIMIT * OTP_MAX_TRIES wrong codes are compared for an address in any half-open stretch of OTP_BLOCK_SEC seconds. |
| OtpGuessRate.GuessRateReached | src/auth/service.py:439-579 | The bound is met by a run, for all positive limits, whenever a code lives through a window of at least two seconds. |
| TtlRounding.RefusalMovesWindow | src/auth/service.py:506-509 | On a clock of milliseconds a refusal moves the window's end by at most half a second, and leaves it iff whole seconds remain. |
| TtlRounding.HammeringShortens | src/auth/service.py:506-509 | A refusal every 600 milliseconds takes 400 milliseconds off the window each time, down to six tenths of its length. |
| Stops.CheckPointExact | src/container_stop/service.py:25-39 | A point is accepted iff exactly one reference is filled and it is the one its type names. |
| Stops.BackwardScan | src/container/state_derive.py:86-89 | The backward scan finds the last arrived stop, or none if no stop has arrived. |
| Stops.NoNextStopIsLastArrived | src/container/state_derive.py:58-99 | On the ordered query result, "no stop numbered above the last arrived" says exactly that the last stop has arrived. |
| Reorder.UniqueThroughout | src/container_stop/service.py:124-153 | If no UPDATE is refused, numbers are unique after every single UPDATE of both loops. |
| Reorder.ParkedForm | src/container_stop/service.py:127-137 | After any number of parking UPDATEs each row has the number the closed form gives, and nothing else changed. |
| Reorder.PlacedForm | src/container_stop/service.py:139-152 | The same after any number of placing UPDATEs. |
| Reorder.ReorderableIffAllPass | src/container_stop/service.py:124-153 | The condition on the given table alone says exactly that no UPDATE will be refused, for repeated, foreign and unknown ids too. |
| Reorder.ReorderableIffTargetsFit | src/container_stop/service.py:124-153 | When no stop is named twice, a reorder succeeds iff the targets are distinct and held by no stop left alone, deleted ones included, and no parking number is in the way: none held by a stop not yet parked, none a target before its item is placed. |
| Reorder.ParkingBlocked | src/container_stop/service.py:128-137 | A stop numbered -10000 blocks every reorder of its container that moves another stop first. |
| Reorder.ParkingBlockedWitness | src/container_stop/service.py:136 | A table and an item whose target fits and that is refused for that reason alone. |
| Reorder.FinalNumbers | src/container_stop/service.py:140-152 | Every listed stop of the container ends at the target of the last item that names it, and every other row is unchanged. |
| Reorder.PermutationSucceeds | src/container_stop/service.py:114-118 | A permutation of the listed stops' own numbers succeeds iff no parking number is in the way, so always when all numbers are above -10000. |
| Reorder.SwapNeedsTwoPhases | src/container_stop/service.py:116-117 | The very first UPDATE of a one-pass swap is always refused, while in two phases the swap succeeds iff no parking number is in the way. |
| StopRuns.DeriveAgrees | src/container/state_derive.py:43-104 | After a derivation the stored state is the derived one, unless it is hold or cancelled, which stay. |
| StopRuns.ChangeAgrees | src/container_stop/service.py:61-62 | A change of one container followed by its derivation keeps the agreement of all containers. |
| StopRuns.DefaultNumberIsFree | src/container_stop/repository.py:65-72 | The default number is above every number of the container, deleted stops included, so it is free, and positive if those are. |
| StopRuns.StepGood | src/container_stop/service.py:50-174 | Every operation, whatever numbers it asks for, keeps numbers unique and every point with exactly its one reference. |
| StopRuns.StepAgrees | src/container_stop/service.py:50-174 | Every operation keeps every container's stored state in agreement. |
| StopRuns.RunKeepsInv | src/container_stop/service.py:50-174 | Both hold in every state of every run, for any numbers requests ask for. |
| StopRuns.EmptyInv | src/container_stop/model.py:52-59 | Both hold for new containers without stops, and all their numbers are positive. |
| StopRuns.StepPositive | src/container_stop/service.py:50-174 | An operation that asks for positive numbers leaves positive numbers positive. |
| StopRuns.RunKeepsPositive | src/container_stop/service.py:50-174 | Over every run of such operations all numbers stay positive: neither default numbers nor parking leave others behind. |
| StopRuns.OrdinaryReorder | src/container_stop/service.py:124-153 | After every such run from new containers, a reorder to positive numbers that names no stop twice succeeds iff its targets are distinct and free. |
| StopRuns.DefaultCreateNeverCollides | src/container_stop/service.py:59-61 | In every state a create without a number is never refused for its number. |
| StopRuns.ManualSurvives | src/container/state_derive.py:43-45 | A hold or cancelled state survives every run without a manual switch of that container. |
| StopRuns.ReorderFrame | src/container_stop/service.py:128-152 | A reorder changes nothing but numbers, and only in its own container. |
| StopRuns.ReorderKeepsWorkState | src/container_stop/service.py:154-155 | A reorder that keeps the arrival of the last stop keeps the derived state and, where they agreed before, leaves every stored state as it was. |
| StopEffects.WorkStateExact | src/container/state_derive.py:43-104 | One iff for each of the six derived work states, over the active stops, their numbers and arrivals, and the legs. |
| StopEffects.DeriveTouchesOne | src/container/state_derive.py:34-45 | A derivation touches no other container, no missing one, and none held or cancelled. |
| StopEffects.DefaultNumberExact | src/container_stop/repository.py:65-72 | The default number is exactly one above the highest in use, or 1 in a new container. |
| StopEffects.CheckPointErrors | src/container_stop/service.py:25-39 | Which of the two errors an invalid point gives. |
| StopEffects.CreateStores | src/container_stop/service.py:50-67 | A create goes through iff point, container and number allow it, and then stores one active row with just what was asked for. |
| StopEffects.CreateRefused | src/container_stop/service.py:56-61 | Otherwise it gives the first of its errors. |
| StopEffects.UpdateStores | src/container_stop/service.py:84-101 | An update stores every field it gives and keeps the others, except that a change of type empties the references it does not give. |
| StopEffects.UpdateRefused | src/container_stop/service.py:85-103 | A refused update gives the first of its errors and changes nothing. |
| StopEffects.DeleteStores | src/container_stop/repository.py:98-111 | A delete switches its row off and changes nothing else. |
| StopService.StopService.ListByContainer | src/container_stop/repository.py:39-49 | The active stops of the container by ascending number, each once. |
| StopService.StopService.NextSequenceNo | src/container_stop/repository.py:65-72 | One above the highest number in use, or 1. |
| StopService.StopService.DeriveAndSaveState | src/container/state_derive.py:24-135 | The branches over the ordered stops store exactly the derived state, and report it iff it changed. |
| StopService.StopService.Create | src/container_stop/service.py:50-67 | Exactly the create step, with its error, for any number asked for; uniqueness and references are kept. |
| StopService.StopService.Update | src/container_stop/service.py:79-109 | Exactly the update step, with its error, null type and null number included; the same is kept. |
| StopService.StopService.Delete | src/container_stop/service.py:162-174 | Exactly the delete step; the deleted row keeps its number in use. |
| StopService.StopService.UpdateNumber | src/container_stop/service.py:129-137 | One UPDATE goes through iff the constraint allows it. |
| StopService.StopService.ParkAll | src/container_stop/service.py:127-138 | The first loop completes iff each of its UPDATEs is allowed, and then gives the parked table. |
| StopService.StopService.PlaceAll | src/container_stop/service.py:139-153 | The second loop completes iff each of its UPDATEs is allowed, and then gives the placed table. |
| StopService.StopService.Reorder | src/container_stop/service.py:111-160 | Succeeds iff the table is reorderable, is otherwise without effect, and returns the stops in their new order. |
| DeliveryOrders.OrderOfLegsIrrelevant | src/delivery_order/state_derive.py:31-37 | The computed status does not depend on the order in which legs are read. |
| DeliveryOrders.DeriveFollowsGraph | src/delivery_order/state_derive.py:52-68 | Every change by the derivation is an edge of the graph within the dispatch phase, and touches only the status. |
| DeliveryOrders.TraceIsWalk | src/delivery_order/state_machine.py:39-64 | The statuses of every run, hand-made and derived changes mixed, form a walk in the graph. |
| DeliveryOrders.CompletedOnlyAfterFinalDelivery | src/delivery_order/state_machine.py:46-48 | An order that starts in the dispatch phase is never completed before it was in final delivery. |
| DeliveryOrders.ReturnFromCompleted | src/delivery_order/state_machine.py:45-48 | Any return from completed to the dispatch phase passes empty staged, final delivery and yard staged in that order. |
| DeliveryOrders.AnswerDispatches | src/driver_mobile/service.py:353-377 | An answer to an offer changes the computed status only by a rejection that frees a pending or assigned leg, and then to dispatching. |
| DeliveryOrders.StepAgreement | src/delivery_order/state_derive.py:52-68 | For every event, exactly when it takes status and computed status apart (an allowed transition, a freeing rejection while not dispatching, a leg change not derived) and when it brings them together again. |
| DeliveryOrders.DispatchAgreement | src/delivery_order/state_derive.py:52-68 | From any derived leg change on, the status is the computed one in every later state, through holds, cancellation and answers, iff no later event takes them apart. |
| DeliveryOrders.DisagreementTraced | src/delivery_order/state_derive.py:52-68 | An order that agreed at the start disagrees after a run iff some event took it apart and nothing, in particular no derivation, has mended it since. |
| DeliveryOrders.NewOrderDisagreement | src/delivery_order/service.py:607-709 | The same for every run of a new order. |
| DeliveryOrders.RejectReopensDispatch | src/driver_mobile/service.py:366-377 | After a rejected pending or assigned leg, and while no other driver is given it, the order is dispatching in every state from the first derivation on, whatever happens to the other legs, to the hold or to the cancellation, until a transition by hand. |
| DeliveryOrders.NeverAcceptedAndRejected | src/driver_mobile/service.py:353-377 | No run makes a leg both accepted and rejected. |
| DeliveryOrders.CancelledForever | src/delivery_order/service.py:692-726 | A cancelled order keeps its time and reason and is never on hold; only a transition by hand moves its status. |
| DeliveryOrders.CancelIdempotent | src/delivery_order/service.py:711-726 | Only the first cancel sets the time and the reason; a second changes nothing. |
| OrderEffects.DispatchExact | src/delivery_order/state_derive.py:31-68 | One iff for each of the three derived statuses, over the legs' activity, drivers and statuses. |
| OrderEffects.LegsChangeKeeps | src/delivery_order/state_derive.py:52-55 | A held, cancelled or further advanced order keeps its status, and nothing but the status ever follows the legs. |
| OrderEffects.LastDriverDispatches | src/delivery_order/state_derive.py:36-37 | After every run, giving the last waiting leg a driver moves the order to dispatched, and giving one of several leaves it dispatching. |
| OrderEffects.GraphExact | src/delivery_order/state_machine.py:39-49 | The graph told by positions: anywhere within the dispatch phase, one status back at a time beyond it, and forward past yard staged and empty staged only. |
| OrderEffects.TransitionExact | src/delivery_order/service.py:642-650 | A transition sets exactly the status asked for if the graph allows it, held and cancelled orders included. |
| OrderEffects.GraphConnected | src/delivery_order/state_machine.py:39-49 | Every status can be reached from every other by transitions. |
| OrderEffects.HoldExact | src/delivery_order/service.py:692-709 | An order that is not cancelled is on hold exactly as asked, with a reason only while it is. |
| OrderEffects.CancelExact | src/delivery_order/service.py:711-726 | The first cancel records time and reason, lifts the hold and keeps its reason and the status. |
| OrderEffects.AnswerExact | src/driver_mobile/service.py:353-377 | When an answer to an offer counts, and exactly what it records on the leg and leaves alone. |
| DeliveryOrderService.DeliveryOrderService.TransitionTo | src/delivery_order/service.py:607-650 | Exactly the transition step; the error names both statuses iff the graph has no such edge. |
| DeliveryOrderService.DeliveryOrderService.SetHoldOverlay | src/delivery_order/service.py:692-709 | Exactly the hold step; refused iff the order is cancelled. |
| DeliveryOrderService.DeliveryOrderService.CancelOverlay | src/delivery_order/service.py:711-726 | Exactly the cancel step. |
| DeliveryOrderService.DeliveryOrderService.DeriveDispatchState | src/delivery_order/state_derive.py:40-68 | For any order of the legs exactly the derivation; reports the new status iff it changed, and then along an edge. |
| DeliveryOrderService.DeliveryOrderService.AcceptOffered | src/driver_mobile/service.py:353-364 | Exactly the accept step; succeeds iff the leg is the driver's own and not yet answered. |
| DeliveryOrderService.DeliveryOrderService.RejectOffered | src/driver_mobile/service.py:366-377 | Exactly the reject step; succeeds iff the leg is the driver's own and not accepted. |
| DeliveryOrderService.DeliveryOrderService.CheckOwner | src/driver_mobile/service.py:663-675 | A missing or deleted leg is not found; another driver's is forbidden. |
| Cdata.ReadSectionEndsFirst | scripts/confluence_publish.py:52 | The reader ends a section at its first section end, as section 2.7 of XML 1.0 says. |
| Cdata.ReadTail | scripts/confluence_publish.py:48 | The rest of an escaped body, read from inside a section, gives that rest back. |
| Cdata.ReadBack | scripts/confluence_publish.py:48-52 | Every body, whatever section ends it contains, is read back exactly from the consecutive sections written for it. |
| Cdata.NothingToEscape | scripts/confluence_publish.py:48 | A body without a section end is written unchanged. |
| Cdata.EscapeNeeded | scripts/confluence_publish.py:48 | Written without the escape, a body would be read back exactly iff it contains no section end. |
| Lines.JoinSplit | scripts/confluence_publish.py:33 | Splitting at line ends loses nothing. |
| Lines.SplitJoin | scripts/confluence_publish.py:48 | Joined lines split into the same lines, except that no line at all becomes one empty line. |
| InlineMarkup.FindIsShortest | scripts/confluence_publish.py:26-28 | Where the pattern of a mark matches at all, the match taken is the shortest. |
| InlineProofs.SubKeepsText | scripts/confluence_publish.py:26-28 | To a reader who passes over marks and the rewriting's own tags, the output of a pass is its input, overlapping marks included. |
| InlineProofs.EscapeReadsBack | scripts/confluence_publish.py:25 | Undoing the entities of an escaped text gives the text. |
| InlineProofs.InlineKeepsText | scripts/confluence_publish.py:23-29 | For every text, such a reader finds on the page exactly the escaped text without marks: nothing else is lost or added. |
| InlineProofs.NothingToMark | scripts/confluence_publish.py:26-28 | A pass changes nothing in a text without its mark. |
| InlineProofs.MarkedTextIsTagged | scripts/confluence_publish.py:25-28 | A text between two marks of a kind is shown, escaped, between that kind's tags. |
| InlineProofs.SubLeftmost | scripts/confluence_publish.py:26-28 | A pass changes nothing up to the leftmost match, takes the shortest match there, and goes on behind it, still seeing the character before. |
| InlineProofs.SubNowhere | scripts/confluence_publish.py:26-28 | A text without a match it leaves alone. |
| InlineProofs.TripleMarksOverlap | scripts/confluence_publish.py:26-28 | Three stars on either side give tags that do not nest. |
| MarkdownLines.HeadingExact | scripts/confluence_publish.py:64-67 | A line is a heading iff it is one to four signs, spaces and a text, and these are its level and text. |
| MarkdownLines.BulletExact | scripts/confluence_publish.py:72-75 | The same for a bullet and its text. |
| MarkdownLines.OrderedExact | scripts/confluence_publish.py:82-85 | The same for a numbered item and its text. |
| MarkdownLines.StripExact | scripts/confluence_publish.py:104 | Stripping takes away all spaces at both ends and nothing else. |
| MarkdownLines.KindExact | scripts/confluence_publish.py:38-104 | At most one of the line tests holds of a line, so their order does not matter. |
| MarkdownLines.ContinuesExact | scripts/confluence_publish.py:44-103 | With which lines each kind of block goes on: a paragraph over lines of no other kind, and over a rule with spaces around it. |
| Scanner.BlocksCut | scripts/confluence_publish.py:37-104 | The blocks found cut the document: each is well formed, as long as it can be, and starts where the one before ends, also after an unclosed fence. |
| Scanner.CutUnique | scripts/confluence_publish.py:37-104 | There is no other such cut. |
| Scanner.EachLineOnce | scripts/confluence_publish.py:32-106 | Every line is taken by exactly one block. |
| Scanner.StorageStep | scripts/confluence_publish.py:37-106 | The output from a line on is the output of its block followed by the output from the block's end on. |
| Converter.ListItems | scripts/confluence_publish.py:72-79 | A list loop takes exactly the run of items and writes each (ordered lists 82-89 alike). |
| Converter.TakeLines | scripts/confluence_publish.py:43-46 | An inner loop takes exactly the lines with which the block goes on (paragraphs 97-103 alike). |
| Converter.ConvertFence | scripts/confluence_publish.py:41-55 | A fence takes the lines up to its closing fence or the end of the document, writes them escaped, and moves behind the closing fence. |
| Converter.ConvertBlock | scripts/confluence_publish.py:38-104 | One turn of the scanner writes exactly the block at its line and moves to its end. |
| Converter.Convert | scripts/confluence_publish.py:32-106 | The loop ends on every input with the output of all blocks in order. |
| Converter.MdToStorage | scripts/confluence_publish.py:32-106 | The page of a document is that of its lines in the source's dialect. |
| PageReader.InlinePlain | scripts/confluence_publish.py:23-29 | The inline rewriting never writes anything that could start a section, for any text. |
| PageReader.ExtractRendered | scripts/confluence_publish.py:50-54 | Reading the sections of rendered blocks gives the texts of the code blocks among them. |
| PageReader.PageGivesFencesBack | scripts/confluence_publish.py:41-55 | For every document, the sections of its page are exactly the texts of its code blocks, in order. |
| PageReader.FenceLinesRecovered | scripts/confluence_publish.py:42-48 | The lines of a code block are recovered from its text iff there are any. |
| PageBlocks.HeadingRead | scripts/confluence_publish.py:64-69 | A reader of the page finds a heading as a title of its level, the number of its signs, with its text. |
| PageBlocks.BulletsRead | scripts/confluence_publish.py:72-79 | It finds a bullet list as one, with one item for each line, in order. |
| PageBlocks.OrderedRead | scripts/confluence_publish.py:82-89 | The same for a numbered list. |
| PageBlocks.ParagraphRead | scripts/confluence_publish.py:96-104 | It finds a paragraph with the stripped text of all its lines, joined by single spaces. |
| PageBlocks.FenceRead | scripts/confluence_publish.py:41-55 | It finds a code block with its text. |
| PageBlocks.PageShowsDocument | scripts/confluence_publish.py:32-106 | For every document, the reader finds exactly one piece for each block that is not blank, in order, of its kind and with the text of all its lines. |
| Earnings.EarningsByLeg | src/driver_mobile/service.py:34-66 | One entry per leg with a line that counts, holding the sum of its bases and whether some line is paid and some is not. |
| Earnings.AddLine | src/driver_mobile/service.py:59-65 | One row is added to its leg's entry, a leg seen first starting from nothing and joining the order of entries. |
| Earnings.LegSumsConserve | src/driver_mobile/service.py:58-66 | Sums taken leg by leg add up to the sum over the lines. |
| Earnings.TotalConserved | src/driver_mobile/service.py:472 | The total over the entries is the sum of all lines' bases. |
| Settlements.WindowIsMonth | src/driver_mobile/service.py:445-458 | The window from the start of the month to the start of the next, over the year's end too, holds exactly the times of that month. |
| Settlements.WeekSpan | src/driver_mobile/service.py:492-495 | A day is in week 1 to 5, and in a week iff it is at most six days after that week's start. |
| Settlements.WeeksConserve | src/driver_mobile/service.py:487-494 | The five weeks' amounts add up to the total. |
| Settlements.CountsAreLegs | src/driver_mobile/service.py:474-476 | The two counts are the legs with a paid line, and together all legs with a line. |
| Settlements.Buckets | src/driver_mobile/service.py:479-495 | The loop puts every entry's amount into the bucket of its week, and makes a bucket only for a week with a leg. |
| Settlements.SortedWeeks | src/driver_mobile/service.py:497-504 | The trend lists the buckets by ascending week and keeps their sum. |
| Settlements.Summarize | src/driver_mobile/service.py:469-513 | For any set of legs: the total is the sum of all lines' bases and of the trend, the counts are legs, and each week starts at most six days before a leg in it. |
| Settlements.MonthlySummary | src/driver_mobile/service.py:432-513 | The same for the legs completed in the month, and zeros and no trend if there are none. |
| CursorWalk.CursorAdvances | src/driver_mobile/service.py:429 | Following the cursor leaves fewer rows, so a walk ends. |
| CursorWalk.WalkIsWalkFrom | src/driver_mobile/service.py:398-402 | Walking by cursors below an id is walking by positions in the list, page for page. |
| CursorWalk.HistoryWalk | src/driver_mobile/service.py:379-430 | The history walk shows every leg exactly once in descending order iff the limit is at least 1 or there are none, in exactly ceil(n / limit) pages, at least one. |
| CursorWalk.FilteredWalk | src/driver_mobile/service.py:515-570 | A filtered walk is a descending prefix of the matches, never repeating one, and shows all of them iff no gap as long as a page comes before a match. |
| DriverPages.EntryIsEarning | src/driver_mobile/service.py:408-426 | What a page says of a leg does not depend on the other legs of the page. |
| DriverPages.LineCounted | src/driver_mobile/service.py:51-65 | Line by line, what a payroll line adds to its leg's earning, and that void and deleted ones add nothing. |
| DriverPages.StatusExact | src/driver_mobile/service.py:556-566 | When a leg is paid out, pending or not billed, over its lines, and that only the last shows no amount. |
| DriverPages.FilterExact | src/driver_mobile/service.py:558-559 | Which legs a status filter keeps. |
| DriverPages.HistoryItems | src/driver_mobile/service.py:408-427 | The items are the page's legs in order, each with its own earning. |
| DriverPages.SettlementItems | src/driver_mobile/service.py:553-568 | The items are the page's legs that pass the filter, each with its status and amount. |
| DriverPages.ListHistory | src/driver_mobile/service.py:398-430 | Exactly the page of the walk, with the items' own earnings. |
| DriverPages.ListSettlements | src/driver_mobile/service.py:543-570 | Exactly the page of the filtered walk, with statuses and amounts. |
| DriverPages.GapWitness | src/driver_mobile/service.py:553-570 | With pages of one leg, a paid leg below one not billed yet is never shown by the walk over paid legs. |
| DriverRates.UpsertSets | src/addon/repository.py:76-95 | An upsert sets one key of the map, leaves all others, and keeps one row per key, also over a soft-deleted row. |
| DriverRates.DeleteRemoves | src/addon/repository.py:97-105 | A delete removes one key of the map, leaves all others, and keeps one row per key. |
| DriverRates.TableIsMap | src/addon/repository.py:49-105 | After every run the table has at most one row per key, and a lookup gives the last upsert since the last delete, or nothing. |
| DriverRates.KeysAreUpserted | src/addon/model.py:72 | The table holds a row for exactly the keys ever upserted, deleted ones included. |
| DriverRates.DriverRateRepository.GetDriverRate | src/addon/repository.py:50-57 | The active row's rate, if there is one. |
| DriverRates.DriverRateRepository.UpsertDriverRate | src/addon/repository.py:76-95 | Exactly the upsert on the table: a row for the key is revived in place, else one is added. |
| DriverRates.DriverRateRepository.DeleteDriverRate | src/addon/repository.py:97-105 | Exactly the delete on the table; reports whether there was a rate. |

## Left out

- Token encoding, password hashing, OAuth, e-mail and SMS: tokens are opaque values, and the signature check is membership in the set of signed tokens.
- Randomness: session ids, token ids and request ids are parameters that a run never repeats; codes may repeat.
- Clocks: the server and Redis share one clock in whole seconds; reads from a lagging replica are not modelled, and milliseconds only in TtlRounding.
- OtpSendProofs.RefusalKeepsWindow: holds for requests at whole seconds, because TTL answers in whole seconds and between them a refusal for a reset or a sign-up moves the end of the window (TtlRounding.RefusalMovesWindow).
- OtpSendProofs.SendBound: rests on that too; the shorter windows of refusals in quick succession (TtlRounding.HammeringShortens) are outside it, as they are outside GuessRateBound. For drivers the window is never set again.
- Interleaving of requests: each request is one atomic step, although the source awaits between its commands.
- Blacklisting the displaced access token at login (src/auth/service.py:252-262): the value is already text, so the decode call raises and the branch is swallowed; the model has no such entry.
- The last branch of logout (src/auth/service.py:390-407): it verifies the bearer token again that has just failed, so in one atomic step it has no effect.
- Roles and team ids in access tokens, the browser cookie check of bearer tokens and the user cache behind it: they do not touch the keys.
- Address normalisation: an address is already in the form the keys use; the service lower-cases e-mail addresses, and its trimming differs between requests.
- The checks on an account before a code is sent, and the corrupted-value branches: the first are easy, and nothing the service stores is corrupted.
- The password write at the end of a reset: it is the parameter for the checks on the account; invalidate-all, which follows it, is modelled with the sessions.
- OtpService.OtpService.Use: the ends of the three flows in one method; which user is logged in or registered is not modelled.
- Reorder.ReorderableIffTargetsFit: an item list that names a stop twice is covered by ReorderableIffAllPass instead, whose condition is longer.
- Column widths: stop numbers, ids and amounts are unbounded integers.
- Team ids on rows: one team is modelled; audit entries, publishing and commits are left out, and a failed request rolls back.
- Stop arrivals and departures reported by drivers, other updates of containers and orders, bulk requests and the creation of stops from an order's payload: their request schemas are not modelled.
- Leg assignment, rate resolution, payroll and invoices: a change of legs, followed by the derivation, is an event of its own; payroll lines are a given list.
- Agreement right after a hold is cleared (src/delivery_order/service.py:698-704) or an offer is rejected (src/driver_mobile/service.py:371-377): neither derives, so agreement is claimed only after the next derivation.
- A driver's progress reports on a leg (src/driver_mobile/service.py:111-149): they go to a leg service that is not part of this model.
- The administrator's forced transition (src/delivery_order/state_machine.py:54-55): transition, the only caller modelled, never uses it.
- Converter.MdToStorage: the set of decimal digits is a parameter, because a digit is any Unicode decimal digit in the source; where it matters, MarkdownLines assumes that no space, point, dash, sign or backtick is a digit.
- Well-formedness of inline markup in general: TripleMarksOverlap shows that it fails, and for which texts it holds is not stated.
- Line-end normalisation by an XML reader, and uploading the page.
- Settlements.MonthlySummary: the current month as the default, the labels and the constant on-hold count are not modelled, and completion times are taken in UTC.
- DriverPages.ListSettlements: upper-casing the filter's text, negative limits and the customer columns are not modelled.
- The addon master and its creation after a soft delete, migrations, seed data, Notion publishing, analytics, chat, API keys and plain record keeping: easy members only.
