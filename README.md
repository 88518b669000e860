# sing-box limiter, modelled in Dafny

This project models the connection rate-limiting layer of sing-box. The layer has two parts.

- **The limiter registry** (`limiter/builder.go`). `WithDefault` builds a `defaultManager` from the configured limiter options. Its `createLimiter` checks one option and then fills the map `mp`. Each key is a `limiterKey`, a prefix ("tag", "user" or "inbound") plus a name, and maps to a limiter object. The tag key shares one limiter with the users and inbounds that are not independent. Every user or inbound of an independent list gets a limiter of its own. `NewConnWithLimiters` and `NewPacketConnWithLimiters` collect the limiters that apply to a connection: the rule's tags in order, then the user, then the inbound. They wrap the connection once per limiter.
- **The limited connections** (`limiter/limiter.go`). `newLimiter` gives a direction a token bucket exactly when its rate is positive, with a burst equal to the rate. `connWithLimiter` and `packetConnWithLimiter` both refresh the deadline first when the limiter has a timeout. The stream `Read` caps the buffer at the upload burst, reads, and then waits on the upload bucket for the bytes read. The stream `Write` cuts the bytes into burst-sized pieces, waits on the download bucket before each piece, adds up the counts, and stops at the first error. `ReadPacket` reads and then waits; `WritePacket` waits and then writes.

Every object whose identity matters is a class:

- the manager and its map (`Registry.Manager.mp`);
- the limiter, immutable after `newLimiter`, so its identity is what "shared" means;
- the two wrappers.

The wrapped connection and the token buckets are collaborators that are not modelled from the inside. The class `Collaborators.Env` records every call made to them as an event of a trace. What a call answers comes from an oracle, which is a parameter and may depend on the whole trace so far. Each wrapper method is proved equal to a specification function of the limiter, the oracle and the trace: the function gives the result, the error and the events the method appends. The lemmas in `PacingProperties` then state what those functions guarantee for every oracle:

- the order of the calls;
- the chunking of writes and the capping of reads;
- where the loop stops on an error;
- the partial byte count.

The registry's methods are proved against reference definitions:

- `Check`, the validation of one option;
- `Owner`, the last accepted option that registers a key;
- `Aliased`, which keys share one limiter;
- `Resolve`, the ordered list of limiters for a connection;
- `WrappedBy`, the layers of the wrapped connection.

Files:

- `basics.dfy`: Option, Result, Min.
- `collaborators.dfy`: calls, replies, traces, the oracle and `Env`.
- `pacing.dfy`: `limiter/limiter.go`, in modules `Pacing` and `PacingProperties`.
- `registry.dfy`: `limiter/builder.go`, in module `Registry`.

## Model

| member | source | states |
|---|---|---|
| Pacing.Limiter.constructor | limiter/limiter.go:20-29 | A download bucket exists exactly when download > 0, with rate and burst equal to download. The same holds for upload. The timeout is stored as given. |
| Pacing.Refresh | limiter/limiter.go:43-48 | The deadline refresh makes at most one call. It makes one exactly when there is a limiter with a positive timeout, and that call is SetDeadline(timeout) answered by the oracle. The same refresh opens Write, ReadPacket and WritePacket (limiter.go:77-82, 126-131, 150-155). |
| Pacing.ConnWithLimiter.Read | limiter/limiter.go:41-54 | Returns the count and error of `ConnRead` for the trace before the call, and appends exactly that function's events to the trace. |
| Pacing.ConnWithLimiter.ReadWithLimiter | limiter/limiter.go:56-73 | Returns and appends what `ConnReadWithLimiter` gives. Without an upload bucket it is a single pass-through Read. |
| Pacing.ConnWithLimiter.Write | limiter/limiter.go:75-88 | Returns the count and error of `ConnWrite` for the trace before the call, and appends exactly its events. |
| Pacing.ConnWithLimiter.WriteWithLimiter | limiter/limiter.go:90-113 | The loop is proved against `ConnWriteWithLimiter`. The invariant is that resuming the specified loop from the current state gives the whole call's result. It terminates because the burst is at least 1. |
| Pacing.WriteLoop | limiter/limiter.go:93-111 | The loop of writeWithLimiter, from a point where n bytes have been written. The count never drops below n, and the loop makes a call exactly when bytes remain. Its full shape is stated by `PacingProperties.WriteLoopTrace`. |
| Pacing.PacketConnWithLimiter.ReadPacket | limiter/limiter.go:124-137 | Returns the address and error of `PacketRead`, and appends its events. |
| Pacing.PacketConnWithLimiter.ReadWithLimiter | limiter/limiter.go:138-148 | Returns and appends what `PacketReadWithLimiter` gives: ReadPacket, then a wait for the datagram length only if the read succeeded. |
| Pacing.PacketConnWithLimiter.WritePacket | limiter/limiter.go:149-162 | Returns the error of `PacketWrite`, and appends its events. |
| Pacing.PacketConnWithLimiter.WritePacketWithLimiter | limiter/limiter.go:163-173 | Returns and appends what `PacketWriteWithLimiter` gives: a wait for the payload length, then WritePacket only if the wait succeeded. |
| PacingProperties.SplitPartition | limiter/limiter.go:94-100 | The reference chunking of p with burst b concatenates back to p. Every piece has between 1 and b bytes, and all but the last have exactly b. |
| PacingProperties.WriteLoopTrace | limiter/limiter.go:93-111 | Whatever the collaborators answer, the loop leaves a trace of rounds: a wait for the next piece's length, then (if the wait succeeded) the write of that piece. It stops at the first error, which is the error returned. The count returned is the sum the writes reported. |
| PacingProperties.TraceFollowsSplit | limiter/limiter.go:98-110 | The chunks such a trace hands to Write are a prefix of the reference chunking. Without an error they are the whole of it. |
| PacingProperties.TracePaced | limiter/limiter.go:101-108 | Event by event, such a trace alternates waits and writes, starting with a wait. Each wait is on the download bucket for 1 to b tokens. Each write carries as many bytes as the wait before it asked for. Every call but the last succeeded, and the error returned is the last call's. |
| PacingProperties.WrittenBound | limiter/limiter.go:105-106 | Writers that report at most their chunk's length report at most the total length of the chunks. |
| PacingProperties.WriteWithLimiterSplits | limiter/limiter.go:90-113 | writeWithLimiter is paced and writes a prefix of p in the reference pieces; with no error it writes all of p, in order. It returns the sum of the counts reported, which is at most \|p\|. An empty p makes no call and returns 0 with no error. The trace is exactly the loop's (`WriteTrace`). |
| PacingProperties.ConnWriteBehaviour | limiter/limiter.go:75-113 | With a positive timeout, SetDeadline(timeout) is the first call; if it fails, its error and 0 are returned and nothing else is called. Otherwise SetDeadline is never called. With a download bucket the events after the refresh are exactly the loop's trace (`WriteTrace`). So an empty p makes no further call, nothing follows the last write, and the chunking, pacing and count are as above. Without one, or without a limiter, it is one Write of p. |
| PacingProperties.PacedWritesOnlyDownload | limiter/limiter.go:83-84 | A paced write never waits on the upload bucket and never sets a deadline. |
| PacingProperties.ConnReadBehaviour | limiter/limiter.go:41-73 | The deadline rule as for Write. With an upload bucket, the Read gets min(burst, len(p)) bytes of buffer, so the count returned (and the wait after it) is at most min(burst, len(p)). A wait on the upload bucket for exactly the count read follows if and only if the read succeeded, and the result's error is the last call's. Without a bucket it is one Read of the whole buffer. The download bucket is never used. |
| PacingProperties.PacketReadBehaviour | limiter/limiter.go:124-148 | The deadline rule; a failed refresh yields the zero address. ReadPacket comes first, and its address is returned. With an upload bucket, a wait for the datagram length follows if and only if the read succeeded. |
| PacingProperties.PacketWriteBehaviour | limiter/limiter.go:149-173 | The deadline rule. With a download bucket, a wait for the payload length comes first, and WritePacket follows if and only if the wait succeeded. Without a bucket there is one WritePacket. |
| Registry.Check | limiter/builder.go:53-76 | The checks of createLimiter, in the source's order. An accepted option names a target and yields settings that are not all zero. An Invalid error comes only from a non-empty field. The if-and-only-if is `Registry.CheckAccepts`. |
| Registry.CheckAccepts | limiter/builder.go:53-76 | An option is accepted if and only if its non-empty fields parse, one of download/upload/timeout is non-zero, and it names a tag, user or inbound. An accepted option yields the parsed settings, which are never all zero. A parse error comes only from a non-empty field, and NoTarget only from an option without targets. |
| Registry.CheckIgnoresEmptyFields | limiter/builder.go:53-70 | An empty field is never parsed: two parsers that agree on the non-empty fields check the option alike. |
| Registry.NothingSetIsRefused | limiter/builder.go:71-73 | An option with no download, upload or timeout is refused with NoLimit. |
| Registry.NoTargetMeansLimitsFine | limiter/builder.go:71-76 | The limits are checked before the targets: an option refused for NoTarget is accepted once it has a tag. |
| Registry.AcceptedOptionHasKeys | limiter/builder.go:74-97 | An accepted option registers at least one key. |
| Registry.NameKeysMembers | limiter/builder.go:84-97 | A user or inbound loop writes the key (prefix, name) exactly for the names in its list. |
| Registry.Manager.constructor | limiter/builder.go:36 | The manager starts with an empty map. |
| Registry.Manager.BindNames | limiter/builder.go:84-97 | The user or inbound loop. Each name is bound to a new limiter of its own when the list is independent, and to the shared limiter otherwise. No key outside the list changes. |
| Registry.Manager.CreateLimiter | limiter/builder.go:48-99 | The error is `Outcome` of the option. On an error the map is unchanged. On success the option's keys are added or overwritten and every other key keeps its limiter. The new limiters are built from the parsed settings and none was in the map before. Two of the option's keys share a limiter exactly when they are equal or both are shared keys (the tag, and non-independent users and inbounds). |
| Registry.Owner | limiter/builder.go:37-44 | The owner found for a key is an accepted option that registers it. |
| Registry.OwnerExists | limiter/builder.go:37-44 | A key has an owner if and only if some accepted option registers it, and no later option registers it: later options overwrite earlier ones. |
| Registry.RegisteredIsOwned | limiter/builder.go:37-44 | The keys registered after the options are exactly the keys that have an owner. |
| Registry.InstallStep | limiter/builder.go:37-44 | One round of WithDefault keeps the invariant `Installed`, whether the option was refused (map unchanged) or accepted. |
| Registry.WithDefault | limiter/builder.go:35-46 | Every option is tried, in order, and its outcome is reported: outcome i is `Outcome` of option i. A failing option does not stop the rest. The map ends up with exactly the registered keys. Each key's limiter is built from the settings of its owner. Two keys share a limiter exactly when they are the same key, or both are shared keys of the same owner. |
| Registry.TagHitsAppend | limiter/builder.go:104-108 | The tag hits of a concatenation of tag lists are the concatenation of their hits, in order. |
| Registry.TagHitsMembers | limiter/builder.go:104-108 | A limiter applies through the rule if and only if one of the rule's tags is registered to it. Unregistered tags are skipped. |
| Registry.TagHitsLength | limiter/builder.go:104-108 | There are at most as many tag hits as tags, and exactly as many when every tag is registered, so duplicates are kept. |
| Registry.ResolveBounds | limiter/builder.go:102-117 | At most len(tags) + 2 limiters apply, all registered in the manager. A nil rule gives no tag hits, and nil metadata gives no user or inbound hit. |
| Registry.Manager.CollectLimiters | limiter/builder.go:102-117 | The collected list is `Resolve`: tag hits in the rule's order, then the user's limiter, then the inbound's, each only if registered. |
| Registry.Manager.NewConnWithLimiters | limiter/builder.go:101-122 | The result is the connection wrapped once per resolved limiter, the first one innermost and the last one outermost. With no limiter it is the input itself. |
| Registry.Manager.NewPacketConnWithLimiters | limiter/builder.go:124-145 | The same, for datagram connections, over the same resolved list as the stream variant. |

## Left out

- Parsing: `humanize.ParseBytes` and `time.ParseDuration` are parameters (`Registry.Parsers`), so every property holds whatever they accept.
- Timeout type: `option/limiter.go:9` declares `Timeout` as `badoption.Duration`, while `limiter/builder.go:65-66` compares it with "" and parses it as a string. The model follows `builder.go`: the timeout is a string run through the duration parser.
- Token-bucket timing: float rates, wall-clock refill and blocking inside `golang.org/x/time/rate` are behind the oracle. The oracle decides whether a `WaitN` succeeds or fails; for example `rate.Limiter` fails a wait for more tokens than its burst. The model keeps `Burst()` as the integer given to `newLimiter`. `PacingProperties.TracePaced` shows that a stream write never waits for more than the burst. A datagram waits for its whole length, and the model does not decide the outcome of that wait.
- Integer width: `Pacing.Limiter.constructor` takes the rates as unbounded naturals. It does not model the `int(download)` conversion of a `uint64` to the burst, which could overflow.
- Time: `time.Now()` and real deadlines are out; `SetDeadline` is recorded as an event carrying the timeout.
- Cancellation context: the context `ctx`, and `service.ContextWith` in `WithDefault`, are left out. `Registry.WithDefault` returns the manager instead of a context holding it.
- Logging: the per-option log lines of `WithDefault` are replaced by the list of outcomes it returns.
- Datagram buffer: a `buf.Buffer` is its payload. After `ReadPacket`, `buffer.Len()` is the count the oracle reports.
- Concurrency: several connections sharing one limiter concurrently is the bucket's own synchronisation and is not modelled.
- Upstream accessors: the `Upstream()` accessors (`limiter/limiter.go:37-39`, `121-123`) only return the wrapped connection, which is the `inner` field of each wrapper.
- Manager interface: `limiter/manager.go` is only the interface the manager satisfies.
- Stacked wrappers: the code wraps the connection once per limiter, and each layer refreshes the deadline and paces on its own. Each wrapper is modelled standing on its own `Env`. How several stacked wrappers compose into one trace is not derived.
- Collaborator counts: a Read or Write reports at most the length of its buffer, which is the io.Reader and io.Writer contract. `Collaborators.Clamp` cuts larger counts down to that length. The byte-count bounds of `PacingProperties.ConnReadBehaviour`, `PacingProperties.WriteWithLimiterSplits` and `PacingProperties.ConnWriteBehaviour` rest on it. The source adds up whatever count the writer reports (`limiter/limiter.go:105-106`).
- Registry.Manager.CreateLimiter: states that the limiters it binds were not in the map before, instead of that they were freshly allocated; with the map as the only holder of limiters, that is the identity property the source relies on.
- Shared collection code: the collection code that `NewConnWithLimiters` and `NewPacketConnWithLimiters` duplicate (`limiter/builder.go:102-117`, `125-140`) is modelled once, as `Registry.Manager.CollectLimiters`, which both call.
