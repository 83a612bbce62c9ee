# SpringCloudPractice services, modelled in Dafny

A Dafny model of the logic inside the Kotlin services of a Spring Cloud practice repository:

- **the gateway server** (`CloudServer`):
  - the `CustomFilter` pre-filter that decides which proxied requests need a session;
  - the `MessageController` that numbers custom messages and sends them to one of four named channels;
  - the `EurekaEventHandler` that keeps a configured set of service instances alive. On a replicated renewal heartbeat whose instance count differs from the number of configured targets, the instance with the smallest port launches every configured target, registered or not, whose port is free locally and not already in `portsInRestart`. The launched ports stay in `portsInRestart` until their registration event arrives.
- **the client service** (`CloudClient`):
  - the `LoginController` login/logout state machine on the HTTP session;
  - the two report endpoints of `ConfigRefreshController`.
- **the shared library** (`CloudBase`): the `CustomMessage` data class and the channel-name constants of `CustomSinkSource`.
- **the stand-alone `BaseConfig` service**: two endpoints that echo an optional text with a `"none"` fallback.

Layout, one module per source file plus two support modules:

| file | module | models |
|---|---|---|
| `wrappers.dfy` | `Wrappers` | `Option` and `Result` |
| `text.dfy` | `Text` | the Kotlin/JVM library pieces the services rely on: the 32-bit `Int` range, `Int.toString()`, `String.toInt()` as `Integer.parseInt`, `Char.isWhitespace()`, `trim()` and `replace(Char, Char)` |
| `cloud_base.dfy` | `CloudBase` | channels and message envelope |
| `server_filter.dfy` | `CloudServerFilter` | the gateway filter |
| `server_messages.dfy` | `CloudServerMessages` | the custom-message endpoint and its `AtomicInteger` counter |
| `server_eureka.dfy` | `CloudServerEureka` | the Eureka event handler |
| `cloud_client.dfy` | `CloudClient` | login, logout and the two reports |
| `base_config.dfy` | `BaseConfig` | `echo` and `param` |

State the source changes in place is modelled imperatively:

- **The filter.** The request context is a `class` whose fields the filter sets on a reject.
- **The message counter.** It is a field of `MessageController`.
- **The Eureka handler.**
  - `portsInRestart` is a `seq` field of `EurekaEventHandler`.
  - The registry's instance list is an `array` that the renewed handler sorts in place.
  - The loop over the targets is a `while` loop.
- **The client's HTTP session.** It is an object with `attributes`, `maxInactiveInterval` and `valid` fields. `invalidate()` clears `valid` and unbinds the attributes, and the request's `getSession` creates a fresh one.

The methods that carry the logic are each proved equal to a specification function: `OnRenewed`, `LaunchMissing`, `OnRegistered`, `Login` and `Logout`. The properties are lemmas about those functions:

- **Eureka handler** (`Scan`, `Renewed`, `Registered`): no port is launched twice until it registers.
- **Login** (`LoginOutcome`, `LogoutOutcome`): the last login wins.

The other methods state their effect directly:

- `CustomFilter.Run` states the context fields it sets on a reject, and that it changes nothing on a forward.
- `TestCustomMessage` states the new counter value (`IncrementAndGet`), that the envelope goes to exactly the channel whose `ChannelName` is the requested name, and the reply (`SendReport` applied to the message and the `send` oracle's answer).
- `SortByPort` states that the result is sorted and a permutation of the input; `SwapDown` states the exchanged cells and the permutation.
- `GetSession`, `SetAttribute` and `Invalidate` state the new state of the session objects.

Inputs the services read from outside become parameters:

- the channel `send` result, as an oracle `(Channel, CustomMessage) -> bool`;
- the port-free probe of `checkPortCanUse`, as an oracle `int -> bool` behind the 0..65535 range check that `ServerSocket` applies;
- the registry's instance ports;
- the Spring `Environment`, as a `map`;
- the JDBC data source.

A process start is recorded as a `Launch(port, profile)` value instead of being executed.

About the launch guard: its `any { it.port != targetPort }` asks whether SOME instance has another port, not whether NO instance has the target port. Once the leader check has passed, the leader itself is such an instance for every target other than the own port, so that conjunct never stops a launch (`CloudServerEureka.AnyOtherPortHoldsForLeader`). A target whose instance is already registered is therefore launched again whenever its port is free on this host. Only `portsInRestart` and the local bind probe prevent that. The model keeps the guard as written.

## Model

| member | source | states |
|---|---|---|
| Text.IntToString | CloudServer/src/main/java/Main.kt:88 | `Int.toString()` (used in the message rendering): a minus sign exactly for negative numbers, then the decimal digits of the magnitude, whose value is the magnitude and which have no leading zero unless the number is 0 |
| Text.ParseInt | CloudServer/src/main/java/Main.kt:171 | `toInt()` succeeds iff there is at least one character after an optional `+`/`-`, all of them ASCII digits, and the signed value fits in an `Int`; the value is then the digits' value, negated after `-` |
| Text.ParseIntRejects | CloudServer/src/main/java/Main.kt:171 | a non-digit after the optional sign makes `toInt()` fail |
| Text.ParseIntLeadingZeros | CloudServer/src/main/java/Main.kt:171 | example only, implied by `ParseInt`'s contract: `"0080"` parses to 80 |
| Text.ParseIntSigns | CloudServer/src/main/java/Main.kt:171 | example only, implied by `ParseInt`'s contract: `"+80"` parses to 80 and `"-80"` to -80 |
| Text.ParseIntToString | CloudServer/src/main/java/Main.kt:171 | parsing the decimal rendering of any 32-bit `Int` gives that `Int` back |
| Text.IsWhitespace | CloudServer/src/main/java/Main.kt:171 | no contract of its own (a predicate): the characters `trim()` removes; used by `Text.Trim`, `Text.TrimPadded` and `Text.TrimBlank` |
| Text.Trim | CloudServer/src/main/java/Main.kt:171 | `trim()` yields a slice of the input with only whitespace before and after it, and the slice neither starts nor ends with whitespace |
| Text.TrimBlank | CloudServer/src/main/java/Main.kt:171 | a blank string trims to the empty string |
| Text.TrimPadded | CloudServer/src/main/java/Main.kt:171 | trimming whitespace, then a word, then whitespace yields exactly the word |
| Text.Replace | CloudServer/src/main/java/Main.kt:171 | `replace('/', ' ')` keeps the length and changes exactly the `/` characters |
| Text.ReplaceConcat | CloudServer/src/main/java/Main.kt:171 | replacing characters distributes over concatenation |
| CloudBase.ChannelOf | CloudBase/src/main/java/Main.kt:31-34 | a name selects a channel iff it equals that channel's constant |
| CloudBase.ChannelNamesDistinct | CloudBase/src/main/java/Main.kt:31-34 | the four channel constants are pairwise distinct |
| CloudBase.NewCustomMessage | CloudBase/src/main/java/Main.kt:39 | each omitted constructor argument takes its default (0, "", "") |
| CloudBase.DefaultMessage | CloudBase/src/main/java/Main.kt:39 | `CustomMessage()` is index 0, type "" and content "" |
| CloudBase.MessageKeepsFields | CloudBase/src/main/java/Main.kt:39 | `CustomMessage(i, t, c)` stores its three arguments unchanged |
| CloudBase.MessageToString | CloudServer/src/main/java/Main.kt:88 | no contract of its own: the data class's generated `toString()`, used inside the reply of `SendReport` |
| CloudBase.MessageEquality | CloudBase/src/main/java/Main.kt:39 | two messages are equal iff all three fields are |
| CloudServerFilter.ReadName | CloudServer/src/main/java/Main.kt:109 | reading the name fails iff there is no session; otherwise it yields the "name" attribute, or `null` when the session has none |
| CloudServerFilter.Decide | CloudServer/src/main/java/Main.kt:107-110 | login URIs and `OPTIONS` always pass; any other request passes iff a session exists; a reject carries text/plain and "No session..." |
| CloudServerFilter.NamelessSessionForwarded | CloudServer/src/main/java/Main.kt:109 | a session without a "name" attribute is still forwarded |
| CloudServerFilter.CustomFilter.Run | CloudServer/src/main/java/Main.kt:104-118 | a forwarded request leaves the context unchanged; a rejected one switches off the proxy response and sets the content type and body |
| CloudServerMessages.IncrementAndGet | CloudServer/src/main/java/Main.kt:79 | the counter adds one, and `Int.MAX_VALUE` wraps to `Int.MIN_VALUE` |
| CloudServerMessages.IndexAfter | CloudServer/src/main/java/Main.kt:64 | no contract of its own: the counter after n increments of a fresh `AtomicInteger()`; see `IndexAfterCounts`, `IndexesIncrease` and `IndexWraps` |
| CloudServerMessages.IndexAfterCounts | CloudServer/src/main/java/Main.kt:64 | starting from a fresh counter, the n-th call gets index n (the first gets 1) until overflow |
| CloudServerMessages.IndexesIncrease | CloudServer/src/main/java/Main.kt:79 | indexes strictly increase from call to call until overflow |
| CloudServerMessages.IndexWraps | CloudServer/src/main/java/Main.kt:79 | the call after the `Int.MAX_VALUE`-th gets `Int.MIN_VALUE` |
| CloudServerMessages.DispatchTo | CloudServer/src/main/java/Main.kt:81-87 | exactly the channel named by `channel` receives the message; success is that channel's send result, and false for an unknown name |
| CloudServerMessages.SendReport | CloudServer/src/main/java/Main.kt:88 | the reply ends in ", success: true" or ", success: false" according to the send result |
| CloudServerMessages.MessageController.TestCustomMessage | CloudServer/src/main/java/Main.kt:78-89 | takes the next index even for an unknown channel, uses "" for a missing type, hands the envelope to exactly the named channel, and reports the send result |
| CloudServerEureka.KeyToPort | CloudServer/src/main/java/Main.kt:171 | no contract of its own: `replace('/', ' ').trim().toInt()`; its properties are those of `Text.Replace`, `Text.Trim` and `Text.ParseInt`, and `KeyToPortPadded` |
| CloudServerEureka.CheckPortCanUse | CloudServer/src/main/java/Main.kt:202 | no contract of its own (a predicate): the port is in 0..65535 and the oracle reports it free |
| CloudServerEureka.AnyOtherPort | CloudServer/src/main/java/Main.kt:174 | no contract of its own (a predicate): some instance has a different port; see `AnyOtherPortHoldsForLeader` and `AnyOtherPortPermuted` |
| CloudServerEureka.ShouldLaunch | CloudServer/src/main/java/Main.kt:173-176 | no contract of its own (a predicate): the four guard conjuncts in the source's order; see `ScanSound` |
| CloudServerEureka.Scan | CloudServer/src/main/java/Main.kt:170-182 | no contract of its own: the launch loop as a function; its properties are the `Scan*` lemmas |
| CloudServerEureka.Renewed | CloudServer/src/main/java/Main.kt:158-185 | no contract of its own: the renewed handler as a function; its properties are `RenewedGate`, `RenewedLoop`, `RenewedLaunches` and `NoRelaunchUntilRegistered` |
| CloudServerEureka.KeyToPortPadded | CloudServer/src/main/java/Main.kt:171 | a key that is a port number surrounded by slashes and whitespace parses to that port |
| CloudServerEureka.KeyToPortPaddedNumeral | CloudServer/src/main/java/Main.kt:171 | a numeral of `-` and `+` signs and digits, ending in a digit and surrounded by slashes and whitespace, parses as the numeral alone does |
| CloudServerEureka.Min | CloudServer/src/main/java/Main.kt:165-166 | `first()` after sorting is a member of the list and no larger than any other |
| CloudServerEureka.ScanAppends | CloudServer/src/main/java/Main.kt:170-182 | the loop only appends: earlier launches stay, and the restart list grows by exactly the launched ports in order |
| CloudServerEureka.ScanSound | CloudServer/src/main/java/Main.kt:173-179 | every launch passed all four guard conjuncts against the starting restart list, and comes from a target with that port and profile |
| CloudServerEureka.ScanNoDup | CloudServer/src/main/java/Main.kt:175-179 | the loop keeps `portsInRestart` free of duplicates |
| CloudServerEureka.ScanComplete | CloudServer/src/main/java/Main.kt:173-179 | after a complete loop, every target that passes the port-based conjuncts is in the restart list |
| CloudServerEureka.ScanOutcome | CloudServer/src/main/java/Main.kt:170-171 | the loop completes iff every key parses; otherwise it stops with `NumberFormatException` at a key that does not |
| CloudServerEureka.ScanPermuted | CloudServer/src/main/java/Main.kt:174 | whether the loop runs on the sorted instance list or the original one makes no difference |
| CloudServerEureka.RenewedGate | CloudServer/src/main/java/Main.kt:160-167 | nothing is launched or recorded unless the event is a replication, the counts differ and the own port is the smallest; an empty list with differing counts throws `NoSuchElementException` |
| CloudServerEureka.RenewedLoop | CloudServer/src/main/java/Main.kt:170-182 | past the gate, the handler completes iff every key is a number; after completion, every parsable target other than the own port that can be bound is restarting |
| CloudServerEureka.RenewedLaunches | CloudServer/src/main/java/Main.kt:170-182 | a renewed event appends exactly the launched ports, each of which passed the guard, and keeps the list duplicate-free |
| CloudServerEureka.AnyOtherPortHoldsForLeader | CloudServer/src/main/java/Main.kt:173-174 | once the leader check has passed, the `any` conjunct holds for every target port other than the own port |
| CloudServerEureka.IndexOf | CloudServer/src/main/java/Main.kt:152 | the first position of a present element |
| CloudServerEureka.Registered | CloudServer/src/main/java/Main.kt:150-153 | removes exactly one copy of the port when present (the multiset loses one `port`, and the cut is at the port's first position) and changes nothing otherwise |
| CloudServerEureka.RegisteredRemovesOnly | CloudServer/src/main/java/Main.kt:150-153 | the registered port is gone afterwards; every other port is kept; the list stays duplicate-free and shrinks by one exactly when the port was there |
| CloudServerEureka.NoRelaunchUntilRegistered | CloudServer/src/main/java/Main.kt:175-179 | of the ports one renewed event launched, a later renewed event can launch again only the one that registered in between |
| CloudServerEureka.SortedFirstIsMin | CloudServer/src/main/java/Main.kt:165-166 | after sorting by port, the first instance has the smallest port |
| CloudServerEureka.AnyOtherPortPermuted | CloudServer/src/main/java/Main.kt:174 | `any` does not depend on the order of the list |
| CloudServerEureka.SortByPort | CloudServer/src/main/java/Main.kt:165 | the instance array ends up sorted by port and is a permutation of what it was |
| CloudServerEureka.EurekaEventHandler.constructor | CloudServer/src/main/java/Main.kt:133-138 | the handler starts with an empty `portsInRestart` |
| CloudServerEureka.EurekaEventHandler.OnRegistered | CloudServer/src/main/java/Main.kt:148-154 | the new `portsInRestart` is that list with the event's port removed if present, and stays duplicate-free |
| CloudServerEureka.EurekaEventHandler.OnRenewed | CloudServer/src/main/java/Main.kt:158-185 | the new `portsInRestart`, the launches and the outcome equal the renewed handler's specification; the instance array is sorted in place exactly when the gate reaches the sort |
| CloudServerEureka.EurekaEventHandler.LaunchMissing | CloudServer/src/main/java/Main.kt:170-182 | the loop's restart list, launches and outcome equal the loop specification |
| CloudClient.Available | CloudClient/src/main/java/Main.kt:57 | `request.session` yields the current session, otherwise a new empty one when one can be created, otherwise `null` |
| CloudClient.LoginOutcome | CloudClient/src/main/java/Main.kt:56-62 | login fails iff there is no session and none can be created; otherwise it stores the user under "name", sets the interval to 99999999, keeps every other attribute, and replies with the user |
| CloudClient.LogoutOutcome | CloudClient/src/main/java/Main.kt:64-69 | no session is left afterwards; logout fails iff there was no session, and otherwise names the user the session held (`null` if none) |
| CloudClient.LastLoginWins | CloudClient/src/main/java/Main.kt:59 | a second login on the same session is the same as one login with the second user |
| CloudClient.LogoutAfterLogin | CloudClient/src/main/java/Main.kt:64-69 | logging out right after a login names the user who logged in |
| CloudClient.SecondLogoutFails | CloudClient/src/main/java/Main.kt:65-69 | after a logout, another logout fails and leaves no session |
| CloudClient.ConfigReport | CloudClient/src/main/java/Main.kt:37-40 | no contract of its own: the `testConfig` reply; see `ConfigReportShowsName`, `ConfigReportAfterLogin` and `ConfigReportAfterLogout` |
| CloudClient.ConfigReportShowsName | CloudClient/src/main/java/Main.kt:37-40 | for two sessions holding a name, the reports are equal iff the names are: the report shows the session through its name and nothing else |
| CloudClient.ConfigReportAfterLogin | CloudClient/src/main/java/Main.kt:37-40 | after a login, the config report names the user, the path and the configured value |
| CloudClient.ConfigReportAfterLogout | CloudClient/src/main/java/Main.kt:37-40 | after a logout, the config report shows `null` for the name (and for an absent property) |
| CloudClient.ConnectionReport | CloudClient/src/main/java/Main.kt:46-49 | the reply is "Unkown data source..." iff the data source is not a Hikari pool, and otherwise carries its JDBC URL |
| CloudClient.HttpSession.SetAttribute | CloudClient/src/main/java/Main.kt:59 | stores one attribute and touches nothing else |
| CloudClient.HttpSession.Invalidate | CloudClient/src/main/java/Main.kt:67 | the session stops being live and its attributes are unbound |
| CloudClient.ClientRequest.GetSession | CloudClient/src/main/java/Main.kt:65 | `getSession(false)` never creates a session; `getSession(true)` creates a fresh empty one when none is live and the container can create one |
| CloudClient.LoginController.Login | CloudClient/src/main/java/Main.kt:56-62 | the request's live session and the reply afterwards are those of the login specification, and a live session is updated rather than replaced |
| CloudClient.LoginController.Logout | CloudClient/src/main/java/Main.kt:64-69 | the live session and the reply afterwards are those of the logout specification, and a request without a session gets none |
| BaseConfig.OrNone | src/main/java/Main.kt:15 | a missing text becomes "none", and a given text is kept |
| BaseConfig.Echo | src/main/java/Main.kt:15 | the reply is "echo: " followed by the text or "none" |
| BaseConfig.Param | src/main/java/Main.kt:18 | the reply is "param: " followed by the text or "none" |
| BaseConfig.EchoMissingIsNone | src/main/java/Main.kt:15 | `echo(null)` and `echo("none")` are both "echo: none" |
| BaseConfig.ParamMissingIsNone | src/main/java/Main.kt:18 | `param(null)` and `param("none")` are both "param: none" |
| BaseConfig.EchoInjective | src/main/java/Main.kt:15 | different given texts give different echoes |
| BaseConfig.ParamInjective | src/main/java/Main.kt:18 | different given parameters give different replies |

## Left out

- Spring bootstrap is not modelled; it is framework behaviour, not repository logic. That covers `main`, the `@SpringBootApplication`/`@Enable*` annotations, request routing, dependency injection and `@Value`/`@RefreshScope` configuration injection and refresh. So `testValue` and the `Client` service's `showName` are not modelled.
- `ClientInfoController` only returns framework objects from the discovery client.
- `testMessage`, the client's `MessageHandlers` stream listeners and the actual channel sends are not modelled. The first two only send or log without logic; a send is the oracle `send`.
- Logging (`Logger`, `wirteLogs`) and the event handlers for cancelled, registry-available and server-started events are not modelled; they only log.
- `Thread.sleep(5000)` in the registered handler is timing only and is not modelled.
- `CloudServerEureka.Scan`: assumes every `Runtime.exec` succeeds. In the source an `IOException` from `exec` (for instance when `cmd` cannot be started) skips adding the port to `portsInRestart` and aborts the loop at that target; the model always records the launch and appends the port.
- The launch command string is not modelled: its `System.nanoTime()` log name and `Runtime.exec` are nondeterminism and I/O. A launch is recorded as its port and profile.
- `checkPortCanUse` is not modelled beyond the port range. Binding a `ServerSocket` is I/O, so the oracle `free` answers for ports in range and is fixed for the duration of one event.
- A null Eureka application or instance list is not modelled. `getApplication(appName)` returning null throws before any logic runs; the registry is assumed to know the application.
- Concurrency is not modelled: the model runs calls and events one at a time. The counter's `incrementAndGet` is atomic in the source, but the Eureka listeners are not synchronized and `portsInRestart` is a plain mutable list. Two renewed events handled at the same time can both find a port missing from `portsInRestart` and both launch it.
- `CloudServerEureka.NoRelaunchUntilRegistered`: holds only when events are delivered one at a time, as the model runs them, and only between configuration refreshes: the handler is `@RefreshScope`, and a refresh re-creates it with an empty `portsInRestart`. The refresh itself is not modelled.
- The library sort is not modelled. `sortBy` is a stable library sort and the model uses an insertion sort on the ports; only the port order is observable here.
- `Text.IsWhitespace` follows the Unicode tables of JDK 9 and later; on JDK 8, U+180E also counts as whitespace.
- `Text.ParseInt`: does not model Unicode digits. `Integer.parseInt` also accepts non-ASCII decimal digits (`Character.digit`); the model, and with it `Text.ParseIntRejects`, accept only ASCII `0`-`9`.
- JDBC and Hikari internals are not modelled; the data source is given as a value.
- `CloudServerMessages.SendReport`: states only how the reply ends, not its full text. A contract spelling out the whole rendering would only restate the function's string template. `MessageToString` renders the data class the way Kotlin's generated `toString()` does.
- `CloudClient.ConfigReport`: has no contract of its own. That the report shows the session only through its name is `ConfigReportShowsName`; what it shows after a login and after a logout is `ConfigReportAfterLogin` and `ConfigReportAfterLogout`.
- `CloudServerEureka.Renewed` and `CloudServerEureka.Scan` carry no contract of their own. Their properties are the `Renewed*` and `Scan*` lemmas.
