# snapd daemon access control and the i2c interface, in Dafny

This project models two pieces of decision logic from snapd, the privileged
daemon that decides which snaps may use which system resources.

**The daemon's request gate** (`daemon/daemon.go`). `Command.canAccess`
decides whether an API request is admitted. It looks at four things: an
authenticated user, if any; the caller's peer credentials from the socket
(pid and uid, `errNoID` for the snap socket, or an unexpected error); the
polkit verdict for the command's action; and the request's HTTP method.
It also reads the command's `GuestOK`, `UserOK`, `SnapOK` and `PolkitOK`
settings. `Command.ServeHTTP` puts a verb dispatch on top of that check.
The graceful-shutdown wrapper `shutdownServer` tracks HTTP connection
states in a map. Once shutdown begins, it closes and forgets idle
connections.

**The i2c interface** (`interfaces/builtin/i2c_test.go`). This interface
gives an application read-write access to one I2C controller device node
`/dev/i2c-N`, which a gadget or core snap declares in a slot. The model
follows what the test suite pins down:
- the slot's `path` attribute rule and its two error messages;
- the interface name;
- unconditional auto-connection;
- the snippets a connected plug adds. The udev backend gets a
  `KERNEL=="i2c-N"` rule tagged `snap_<snap>_<app>`. The AppArmor backend
  gets `rw` rules on the device node and its sysfs node, under the tag
  `snap.<snap>.<app>`.

Modules:
- `Wrappers` (wrappers.dfy): Option and pass/fail outcomes.
- `Strings` (strings.dfy): substring containment, join, character
  replacement, last path segment, and the lexicographic order with sorted
  insertion.
- `Daemon` (daemon.dfy): the request gate and the `ShutdownServer` class.
- `Interfaces` (interfaces.dfy): plugs, slots and security tags.
- `Udev` (udev.dfy) and `AppArmor` (apparmor.dfy): the backends'
  `Specification` classes.
- `I2c` (i2c.dfy): the interface itself and the test suite's scenarios.

Inputs the daemon gets from elsewhere are parameters:
- the result of `ucrednetGet` is the `PeerCred` carried by a `Request`;
- polkit is a function from (pid, action ID) to a `PolkitVerdict`;
- the user found by `UserFromRequest` is an `Option<User>`.

A `ResponseFunc` is represented by a handler identifier. `None` stands
for a nil handler.

## Model

| member | source | states |
|---|---|---|
| `Daemon.CanAccess` | daemon/daemon.go:89-135 | An authenticated user is always admitted. A uid-0 peer is always admitted. An unexpected credential error denies everyone except an authenticated user. A `SnapOK` command admits credential-less callers for every method. A non-root credentialed caller who is denied the GET check is admitted only through polkit `Authorized`. A non-GET request is admitted only for a user, a credentialed peer, or a SnapOK snap-socket caller. |
| `Daemon.CanAccessAdmits` | daemon/daemon.go:89-135 | Admission holds exactly when at least one of six separately stated reasons holds: user, root, polkit, snap socket with SnapOK, GET with UserOK and credentials, or GET with GuestOK and no lookup error. |
| `Daemon.NonGetNeedsPrivilege` | daemon/daemon.go:103-124 | A non-GET request is denied unless it comes from a user, root, a polkit-authorized caller, or the snap socket with SnapOK. |
| `Daemon.GetFlags` | daemon/daemon.go:114-132 | For GET, `UserOK` admits callers with credentials. Without SnapOK, a credential-less caller is admitted iff `GuestOK`. `GuestOK` admits every caller whose lookup did not fail. |
| `Daemon.PolkitOnlyGrants` | daemon/daemon.go:103-112 | Polkit outcomes other than `Authorized` (not authorized, dismissed, error) give the same decision as each other. Without a polkit action, polkit is never consulted. |
| `Daemon.ServeHTTP` | daemon/daemon.go:144-167 | A response is Unauthorized exactly when the request is denied, always with the message "access denied", and then no handler runs. An admitted GET/PUT/POST/DELETE whose handler for that verb is set runs that handler with the request's user. A handler runs only in that case. An admitted request with a nil handler for its verb, or with any other verb, gets MethodNotAllowed for the request's method. |
| `Daemon.PlainUserCannotMutate` | daemon/daemon.go:122-124 | A non-root caller with credentials and without an authenticated user, on a command without a polkit action, gets Unauthorized for every non-GET request. |
| `Daemon.Tracked` | daemon/daemon.go:330-339 | After `trackConn`, only the entry for the reported connection changes. That entry is gone for Closed or Hijacked, and for Idle while shutting down. Otherwise it is the reported state. |
| `Daemon.ClosedByTrack` | daemon/daemon.go:334-337 | `trackConn` closes the connection itself exactly when it reports Idle while the server is shutting down. |
| `Daemon.WithoutIdle` | daemon/daemon.go:349-354 | Eviction keeps exactly the non-idle entries, with their states unchanged. |
| `Daemon.IdleConns` | daemon/daemon.go:349-354 | The connections eviction closes are exactly the idle entries. |
| `Daemon.TrackedKeepsInvariant` | daemon/daemon.go:325-340 | `trackConn` keeps the invariant: no Closed or Hijacked entry, and no Idle entry while shutting down. |
| `Daemon.WithoutIdleEstablishesInvariant` | daemon/daemon.go:348-354 | After eviction the invariant holds with `shuttingDown` set. |
| `Daemon.ShutdownServer.constructor` | daemon/daemon.go:308-319 | A new server has an empty connection map and is not shutting down. |
| `Daemon.ShutdownServer.TrackConn` | daemon/daemon.go:325-340 | The map becomes `Tracked` of the old map, `shuttingDown` is unchanged, the connection is closed only in the idle-while-shutting-down case, and the invariant is kept. |
| `Daemon.ShutdownServer.FinishShutdown` | daemon/daemon.go:342-359 | Sets `shuttingDown` and evicts exactly the idle connections, closing each of them. The result says whether no connection is left, which is when `finishShutdown` returns nil at once. |
| `Interfaces.SecurityTag` | interfaces/builtin/i2c_test.go:170 | An application's AppArmor tag is `snap.` + snap + `.` + app: it starts with `snap.`, holds the snap name followed by '.', and ends with the application name. |
| `Interfaces.SecurityTagInjective` | interfaces/builtin/i2c_test.go:170 | Within one snap, different applications have different tags. |
| `Interfaces.SecurityTagsDistinct` | interfaces/builtin/i2c_test.go:170 | For snap names without '.', equal tags mean the same snap and the same application, so tags of different snaps never collide. |
| `Interfaces.UdevTag` | interfaces/builtin/i2c_test.go:164 | The udev tag is the security tag with its dots replaced: the same length and no '.' left. |
| `Interfaces.UdevTagOfNames` | interfaces/builtin/i2c_test.go:164 | For dot-free snap and application names, the udev tag is `snap_<snap>_<app>`. |
| `Udev.Specification.constructor` | interfaces/builtin/i2c_test.go:161 | A fresh udev specification holds no snippets. |
| `Udev.Specification.AddSnippet` | interfaces/builtin/i2c_test.go:162-163 | Appends one rule to the snippet list. |
| `AppArmor.Specification.constructor` | interfaces/builtin/i2c_test.go:168 | A fresh AppArmor specification holds no tags. |
| `AppArmor.Specification.AddSnippet` | interfaces/builtin/i2c_test.go:169 | Appends one snippet under a tag. No other tag changes. |
| `AppArmor.AppendUnder` | interfaces/builtin/i2c_test.go:167-170 | Appending a snippet under a set of tags gives exactly the old tags plus the new ones. Each new tag's list grows by the snippet, and every other tag keeps its list. |
| `AppArmor.AppendUnderStep` | interfaces/builtin/i2c_test.go:169 | Appending under one more tag, one `AddSnippet` at a time, builds the same map as appending under the larger set at once. |
| `AppArmor.Specification.SecurityTags` | interfaces/builtin/i2c_test.go:170 | Returns every tag that has snippets, each exactly once, in strictly increasing lexicographic order. |
| `Strings.SortedDistinct` | interfaces/builtin/i2c_test.go:170 | The sorted tag list holds each tag at most once. |
| `AppArmor.Specification.SnippetForTag` | interfaces/builtin/i2c_test.go:171-172 | The tag's text contains every snippet recorded under the tag. It is the snippet itself when there is one, and empty when there are none. |
| `I2c.Name` | interfaces/builtin/i2c_test.go:136-138 | The interface name is "i2c". |
| `I2c.AutoConnect` | interfaces/builtin/i2c_test.go:175-177 | Auto-connection is allowed for every plug and slot, absent ones included. |
| `I2c.MatchesDevicePath` | interfaces/builtin/i2c_test.go:80-101 | The path matcher accepts exactly `/dev/i2c-` followed by one or more decimal digits. |
| `I2c.SanitizeSlot` | interfaces/builtin/i2c_test.go:140-158 | Passes iff `path` is present and a device path. A missing or empty path fails with "i2c slot must have a path attribute", and that check takes precedence. Every other failure is "i2c path attribute must be a valid device node". |
| `I2c.DevicePathShape` | interfaces/builtin/i2c_test.go:80-101 | A path is accepted iff it is `/dev/i2c-` followed by a non-empty string of digits (both directions). |
| `I2c.DeviceNameOfPath` | interfaces/builtin/i2c_test.go:164 | The kernel name of an accepted path, its last segment, is `i2c-<digits>`, which is the path without `/dev/`. |
| `I2c.UDevSnippets` | interfaces/builtin/i2c_test.go:160-165 | A connected plug contributes one udev rule per application bound to the plug, in order. |
| `I2c.UDevSnippetContents` | interfaces/builtin/i2c_test.go:164 | For snap and application names without '.', each rule reads `KERNEL=="i2c-<digits>", TAG+="snap_<snap>_<app>"`. |
| `I2c.UDevConnectedPlug` | interfaces/builtin/i2c_test.go:160-165 | Adding a connected plug to a udev specification appends exactly those rules after the existing ones. |
| `I2c.AppArmorSnippetGrants` | interfaces/builtin/i2c_test.go:171-172 | The AppArmor snippet grants `rw` on the device path and on `/sys/devices/platform/{*,**.i2c}/i2c-<digits>/**`. |
| `I2c.AppArmorConnectedPlug` | interfaces/builtin/i2c_test.go:167-173 | Adding a connected plug appends the snippet once under the security tag of every application bound to the plug. It leaves every other tag as it was and adds no other tag. |
| `I2c.SanitizeFixtures` | interfaces/builtin/i2c_test.go:61-158 | Every fixture slot gets the verdict its test expects: `/dev/i2c-0`, `-1` and `-11` pass; `/dev/i2c`, `/dev/i2c-a`, `/dev/i2c-2a`, `/dev/foo-0` and `/dev/i2c-foo` get the device-node error; an empty or missing path gets the missing-path error. |
| `I2c.UDevSpecScenario` | interfaces/builtin/i2c_test.go:160-165 | The client plug connected to `test-udev-1` yields exactly one udev rule. That rule contains `KERNEL=="i2c-1", TAG+="snap_client-snap_app-accessing-1-port"`. |
| `I2c.AppArmorSpecScenario` | interfaces/builtin/i2c_test.go:167-173 | The same connection yields the tag list `["snap.client-snap.app-accessing-1-port"]`. That tag's snippet contains `/dev/i2c-1 rw,` and `/sys/devices/platform/{*,**.i2c}/i2c-1/** rw,`. |

## Left out

- Socket setup, systemd activation and routing (`getListener`, `Init`, `addRoutes`): I/O and foreign libraries.
- Request logging (`logit`, `wrappedWriter`): it forwards writes and measures wall-clock time.
- The daemon lifecycle (`Start`, `Stop`, `Dying`, `New`): goroutines, the overlord and the `shutdown` command.
- The wait loop of `finishShutdown`, which polls `conns` until a timeout with the lock released: concurrency and time. `FinishShutdown` models the eviction phase and the first "no connections left" check only.
- The mutex around `conns`: each method is modelled as one atomic step.
- `ucrednetGet`, `polkitCheckAuthorizationForPid`, `UserFromRequest` and the state lock: foreign calls, modelled by their results as inputs. The log messages for polkit and credential errors are not modelled.
- Daemon.ServeHTTP: `MethodNotAllowed` carries the method, not the `%q`-formatted message text. The handler's own response is not modelled, only which handler runs and with which user.
- Daemon.ShutdownServer.TrackConn: `conn.Close()` is recorded in the `closed` set rather than performed.
- The i2c implementation file and the udev and AppArmor `Specification` packages are not part of this model. The i2c model states what the tests assert:
  - the udev snippet is exactly the asserted rule line;
  - the AppArmor snippet is the two asserted rule lines;
  - the sysfs glob is the tested literal.
- Snippets are appended without de-duplication. The specification code is not part of this model, and the tests do not exercise de-duplication.
- The specifications' `AddConnectedPlug` dispatch over arbitrary interfaces is left out: only the i2c contribution is modelled (`I2c.UDevConnectedPlug`, `I2c.AppArmorConnectedPlug`).
- I2c.UDevConnectedPlug and I2c.AppArmorConnectedPlug require a slot that passed `SanitizeSlot`, because only sanitized slots are ever connected. They take the order of the plug's applications as given by the `apps` sequence. Go iterates a map there, so that order is unspecified.
- I2c.SanitizeSlot: non-string `path` values, any cleaning of the path, and checks on the slot's snap type are not asserted by the tests, so they are not modelled.
- Plug sanitization, permanent snippets and connected-slot snippets of the i2c interface are not exercised by the tests.
- Hook security tags (`snap.<snap>.hook.<hook>`) are not exercised by the tests.
- The registry membership test (`builtin.Interfaces()` contains i2c) depends on global state outside this model.
