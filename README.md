# chatty-cache in Dafny

chatty-cache is an in-process key/value cache for Go programs. Several processes can share it
over a NATS message bus. This project models its core and proves properties of the model:

- **The cache engine** (`InMemCache`): a map of namespaces to maps of keys to entries, with a
  byte budget. Values are stored as their JSON bytes. When the byte counter goes over the
  budget, entries are evicted least recently touched first, across all namespaces. `Get`
  refreshes an entry's touch time.
- **The replication relay** (`NatMessagesChatterRelay`): every `Put` is handed to the relay. The
  relay publishes an envelope naming the sending node and a protocol version. Inbound envelopes
  from other nodes are decoded and handed to the registered listener. The cache's listener stores
  the value without replicating it again.
- **The envelope cipher** (protocol version 1, used when a passphrase is set). A random 256-bit
  message key encrypts the payload. The key itself is encrypted under the SHA-256 of the
  passphrase. Both use AES-CBC with a random IV in front, zero padding, and zero trimming on
  decryption.
- **The error type** `CacheError`.

Files:

- `basics.dfy`: bytes, `Option`, `Result`.
- `library.dfy`: the libraries the core calls. `encoding/json`, `encoding/base64`, AES and SHA-256
  are function-valued parameters. The facts the proofs need about them are stated as `Lawful...`
  predicates. CBC mode is written out over the abstract block cipher, and its round trip is proved.
- `errors.dfy`: `CacheError` and the values of Go's `error` interface.
- `model.dfy`: `CacheRelayMessage`.
- `encryptv0.dfy`: padding, trimming and the two cipher calls.
- `chatter.dfy`: the relay, as a class. Publishing appends to `outbox`, delivery from the bus is
  a call of `HandleCacheSync`, and listener calls are recorded in `invocations`.
- `cachespec.dfy`: the cache's state as a value. It holds the entries oldest first, the byte
  counter and a logical clock, and specifies `putBits`, `evict` and `Get` as functions.
- `inmemcache.dfy`: `InMemCache` as a class over the same maps and counter. A ghost `order` lists
  the entries by touch time, and every method is proved to follow `CacheSpec`.

The counter is a `uint64`, and its wrap-around is written out. The accounting invariants are
proved for budgets below a third of 2^64. Under them the counter stays within twice the budget
and never wraps.

Where the system's specification and its code disagree, the model follows the code:

- The specification says the counter equals the bytes stored. The code never subtracts evicted or
  replaced entries (see Findings).
- The specification says a zero budget means "no size checks". The code's first check refuses every
  non-empty value under a zero budget (see Findings).
- The specification says a relay is handed the value only after a successful `Put`. The code hands it
  over whenever marshalling succeeded, including when storing failed.
- The specification says decryption strips trailing zeros. `bytes.TrimFunc` strips zero bytes at both
  ends.
- The specification says in one place that a failing eviction must "leave the table unmodified", and in
  another that entries already deleted during the failed walk are "not restored". The code does the
  second: the deletions already made stay done, and `PutBitsEvictsOldestFirst` states it.
- The specification says a `Get` whose bytes do not decode reports `NotSerializable`. The code builds
  that error, discards it, and returns the decoder's own error.
- The specification says `Get` touches the entry under the lock. The code touches it after releasing
  the read lock. The model is sequential, so this makes no difference in it.

## Model

| member | source | states |
|---|---|---|
| CacheErrors.CacheError.Error | pkg/cache/errors.go:23-31 | the text starts with the problem, then " wrapped - " and the wrapped error's text or "no wrapped error", and ends with a space |
| CacheErrors.NewCacheError | pkg/cache/errors.go:33-38 | the new error holds exactly the given problem and wrapped error |
| CacheErrors.ProblemKindsDistinct | pkg/cache/errors.go:16-21 | the five problem kinds are pairwise distinct |
| CacheErrors.ErrorWithoutWrapped | pkg/cache/errors.go:24-30 | without a wrapped error the text is "<problem> wrapped - no wrapped error " |
| CacheErrors.ErrorEmbedsWrapped | pkg/cache/errors.go:24-30 | with a wrapped error, its message can be read back from the text between the prefix and the final space |
| CacheErrors.ErrorDistinguishesProblems | pkg/cache/errors.go:23-31 | two errors without wrapped errors render the same text if and only if their problems are equal |
| EncryptV0.MakeAesKey | pkg/chatter/encryptv0.go:16-23 | every passphrase yields a 32-byte key of a valid AES length |
| EncryptV0.MakeRandom256AesKey | pkg/chatter/encryptv0.go:24-31 | the 32 bytes read if and only if the reader succeeds; a panic otherwise |
| EncryptV0.KeySizeError | pkg/chatter/encryptv0.go:34-37 | the error `aes.NewCipher` returns for a bad key: the fixed text "crypto/aes: invalid key size " followed by the key's length in decimal |
| EncryptV0.DecimalRoundTrip | pkg/chatter/encryptv0.go:34-37 | the decimal digits of the length read back as that length |
| EncryptV0.KeySizeErrorNamesLength | pkg/chatter/encryptv0.go:34-37 | two key lengths give the same error text if and only if they are equal |
| EncryptV0.AddZeroPadding | pkg/chatter/encryptv0.go:78-82 | keeps the input as a prefix and appends 1 to blockSize zero bytes, reaching a multiple of blockSize (a whole extra block for an aligned input) |
| EncryptV0.UnPadTheZeros | pkg/chatter/encryptv0.go:84-89 | `bytes.TrimFunc` with a zero-byte test: strips zero bytes at both ends; `UnPadStripsOnlyEndZeros`, `UnPadIdentityIff` and `UnPadAfterPadding` state what it keeps |
| EncryptV0.UnPadStripsOnlyEndZeros | pkg/chatter/encryptv0.go:84-89 | the input is zero runs around the result, and the result has no zero byte at either end |
| EncryptV0.UnPadIdentityIff | pkg/chatter/encryptv0.go:84-89 | trimming leaves a byte string unchanged if and only if it has no zero byte at either end |
| EncryptV0.UnPadAfterPadding | pkg/chatter/encryptv0.go:78-89 | trimming a padded input gives the trimmed input |
| EncryptV0.Decrypt | pkg/chatter/encryptv0.go:59-77 | panics exactly for a valid key and a source shorter than one block; errors exactly for an invalid key (the key-size error naming its length) or a source that is not block aligned; otherwise the result has no zero ends and is no longer than the body |
| EncryptV0.DoAesCBCEncrypt | pkg/chatter/encryptv0.go:32-57 | the buffers copied together are the IV followed by the CBC encryption of the padded source, after the key and reader errors |
| EncryptV0.DoAesCBCDecrypt | pkg/chatter/encryptv0.go:59-77 | the output buffer filled by the CBC decrypter and trimmed is what `Decrypt` specifies, error and panic cases included |
| EncryptV0.Encrypt | pkg/chatter/encryptv0.go:32-57 | `DoAesCBCEncrypt` as a value: the key-size error, the reader's error, or the IV followed by the CBC encryption of the padded source; `EncryptShape`, `EncryptDecryptTrims` and `EncryptDecryptRoundTripIff` state its properties |
| EncryptV0.EncryptShape | pkg/chatter/encryptv0.go:32-57 | an invalid key gives the key-size error naming the key's length; otherwise the output starts with the IV and is one block longer than the padded source |
| EncryptV0.EncryptDecryptTrims | pkg/chatter/encryptv0.go:32-89 | decrypting an encryption under the same valid key gives the plaintext with its zero ends trimmed |
| EncryptV0.EncryptDecryptRoundTripIff | pkg/chatter/encryptv0.go:32-89 | the round trip is exact if and only if the plaintext has no zero byte at either end |
| Library.CbcRoundTrip | pkg/chatter/encryptv0.go:50-52 | CBC decryption under the same key and IV inverts CBC encryption, for an invertible block cipher |
| Library.CbcEncrypt | pkg/chatter/encryptv0.go:50-52 | `NewCBCEncrypter` and `CryptBlocks`: each block is the cipher of itself XORed with the previous ciphertext block, the IV first; the output is as long as the input |
| Library.CbcDecrypt | pkg/chatter/encryptv0.go:72-73 | `NewCBCDecrypter` and `CryptBlocks`: each block is the inverse cipher of itself XORed with the previous ciphertext block; the output is as long as the input |
| Chatter.Receive | pkg/chatter/NatsChatter.go:151-173 | undecodable, self-echo and unknown-version envelopes are told apart exactly; only a decodable envelope from another node with version 0 or 1 is accepted |
| Chatter.Outbound | pkg/chatter/NatsChatter.go:66-72 | the frame `ReplicateCachedObject` publishes: plain without a passphrase, encrypted with one; `PublishedFrameNamesSender` states what receivers read from it |
| Chatter.PlainFrame | pkg/chatter/NatsChatter.go:74-96 | the version-0 envelope of the base64 JSON message, or no frame on an encoding error; `PlainRoundTrip` is its inverse on the receiving side |
| Chatter.EncryptedFrame | pkg/chatter/NatsChatter.go:97-132 | the version-1 envelope: the message encrypted under a fresh key, the key encrypted under the passphrase's digest, both encryption errors ignored; `EncryptedRoundTrip` and `FailedKeyIvCrashesReceivers` state what receivers make of it |
| Chatter.Unencrypted | pkg/chatter/NatsChatter.go:174-190 | what a receiver makes of a version-0 envelope: dropped on bad base64 or JSON, otherwise the decoded message; `PlainRoundTrip` relates it to `PlainFrame` |
| Chatter.Encrypted0 | pkg/chatter/NatsChatter.go:191-227 | what a receiver makes of a version-1 envelope, step by step as the source decodes it, with the fields a failed JSON decode leaves filled; `EncryptedRoundTrip`, `ZeroEndedMessageKeyIsDropped` and `UndecodableCipherMessageKeepsFilledFields` state its properties |
| Chatter.NatMessagesChatterRelay.constructor | pkg/chatter/NatsChatter.go:49-64 | the node id is the generated UUID, or "42" when generation fails; no listener, nothing published |
| Chatter.NatMessagesChatterRelay.ReplicateCachedObject | pkg/chatter/NatsChatter.go:66-72 | sends plain without a passphrase and encrypted with one; the outbox grows by the published frame only |
| Chatter.NatMessagesChatterRelay.SendReplicateMessageNoEncrypt0 | pkg/chatter/NatsChatter.go:74-96 | publishes the version-0 envelope of the base64 JSON message, or gives up on an encoding error |
| Chatter.NatMessagesChatterRelay.SendReplicateMessageEncrypt0 | pkg/chatter/NatsChatter.go:97-132 | publishes the version-1 envelope of the encrypted message, ignoring both encryption errors, and panics when the key cannot be drawn |
| Chatter.NatMessagesChatterRelay.RegisterListenerForReplicatedObjects | pkg/chatter/NatsChatter.go:133-135 | the new listener replaces any earlier one |
| Chatter.NatMessagesChatterRelay.HandleCacheSync | pkg/chatter/NatsChatter.go:151-173 | the outcome is `Receive`'s, and the listener is called once, with the decoded message, exactly when a message is accepted and a listener is set |
| Chatter.NatMessagesChatterRelay.ProcessUnencrypted | pkg/chatter/NatsChatter.go:174-190 | drops bad base64 or JSON; otherwise hands the decoded message to the listener, if any |
| Chatter.NatMessagesChatterRelay.ProcessEncrypted0 | pkg/chatter/NatsChatter.go:191-227 | each decoding step's failure drops the message, a too-short ciphertext panics, and only a decrypted and decodable message reaches the listener |
| Chatter.PublishedFrameNamesSender | pkg/chatter/NatsChatter.go:74-132 | every published frame decodes to an envelope naming the sender, with the version its passphrase selects |
| Chatter.OwnFramesAreIgnored | pkg/chatter/NatsChatter.go:158-162 | a node never acts on a frame it published itself, whatever either passphrase |
| Chatter.PlainRoundTrip | pkg/chatter/NatsChatter.go:174-190 | a plain frame from another node is accepted with the message sent, even by a node that has a passphrase |
| Chatter.EncryptedRoundTrip | pkg/chatter/NatsChatter.go:191-227 | with a shared passphrase and no zero byte at the ends of the message key or the marshalled message, an encrypted frame is accepted with the message sent |
| Chatter.FailedKeyIvCrashesReceivers | pkg/chatter/NatsChatter.go:109-110 | when the IV read for wrapping the message key fails, the frame is still published and every other node panics on it |
| Chatter.ZeroEndedMessageKeyIsDropped | pkg/chatter/NatsChatter.go:205-215 | a message key whose trimmed length is no AES key length makes the receiver drop the message |
| Chatter.UndecodableCipherMessageKeepsFilledFields | pkg/chatter/NatsChatter.go:198-204 | the ignored JSON error leaves the fields already decoded: a message key left undecodable drops the message, and an empty one reaches the decrypter and panics |
| CacheSpec.Lookup | pkg/cache/inmemcache.go:124-127 | a hit is an entry of the store under that name and key; a miss happens if and only if no entry has them |
| CacheSpec.LookupInsert | pkg/cache/inmemcache.go:112 | after `m[cacheKey] = x` the key finds `x` and every other key finds what it found before |
| CacheSpec.Touch | pkg/cache/inmemcache.go:31-33 | `touch` on the store: the entry takes the current time and moves to the end of the touch order; `GetHit` states what else it keeps |
| CacheSpec.EvictCount | pkg/cache/inmemcache.go:143-158 | how many of the oldest entries the loop of `evict` deletes, never more than there are; `EvictCountShortest` states which prefix that is |
| CacheSpec.PutBits | pkg/cache/inmemcache.go:84-118 | `putBits` on the store: the oversize check, the counter update modulo 2^64, the eviction and the conditional store; the `PutBits...` lemmas below state its properties |
| CacheSpec.EvictCountShortest | pkg/cache/inmemcache.go:146-156 | the eviction deletes the shortest non-empty prefix of the oldest entries that frees the request, or all of them; it frees enough if and only if all entries together do |
| CacheSpec.PutBitsErrors | pkg/cache/inmemcache.go:84-118 | `ExceedsTotalCacheSize` if and only if the value is larger than the budget; `ObjectToLarge` if and only if evicting everything cannot free the overflow; success otherwise |
| CacheSpec.PutBitsRejectsOversize | pkg/cache/inmemcache.go:92-95 | a rejected value changes neither the entries nor the counter |
| CacheSpec.PutBitsWithoutEviction | pkg/cache/inmemcache.go:100-113 | without an eviction the value is found under its key, the counter grows by its size modulo 2^64, and other keys are unaffected |
| CacheSpec.PutBitsEvictsOldestFirst | pkg/cache/inmemcache.go:100-113 | every evicted entry is older than every kept one, kept keys find what they found, and the value is stored if and only if the eviction freed enough; a failed eviction empties the store |
| CacheSpec.PutBitsKeepsAccounting | pkg/cache/inmemcache.go:99-113 | under a budget below 2^64/3 the stored bytes stay within the budget, the counter bounds them within twice the budget, and the counter never decreases |
| CacheSpec.PutBitsWellFormed | pkg/cache/inmemcache.go:84-118 | every put keeps the entries ordered by touch time, one per key, all touched in the past |
| CacheSpec.Get | pkg/cache/inmemcache.go:121-140 | `Get` on the store: a miss changes nothing, a hit touches the entry and yields its bytes; `GetMiss`, `GetHit` and `GetKeepsAccounting` state its properties |
| CacheSpec.GetMiss | pkg/cache/inmemcache.go:124-131 | a miss returns nothing and changes nothing |
| CacheSpec.GetHit | pkg/cache/inmemcache.go:124-135 | a hit returns the stored bytes and makes that entry the most recently touched; other keys, the stored bytes and the counter are unchanged |
| CacheSpec.GetKeepsAccounting | pkg/cache/inmemcache.go:121-140 | `Get` keeps every store invariant |
| CacheSpec.ZeroBudgetRejectsNonEmpty | pkg/cache/inmemcache.go:93-95 | under a zero budget a put fails if and only if the value is non-empty, and then stores nothing |
| CacheSpec.EmptiedStoreLocksOut | pkg/cache/inmemcache.go:100-106 | once the store is empty and the counter has reached the budget, every non-empty value is refused and the counter stays put |
| CacheSpec.CounterLockoutExample | pkg/cache/inmemcache.go:100-106 | under a 10-byte budget the third of three 6-byte puts empties the store and fails, with 12 bytes counted |
| CacheSpec.PutBitsTracked | pkg/cache/inmemcache.go:84-118 | the corrected put: the counter always equals the bytes stored |
| CacheSpec.TrackedPutStoresEveryFittingValue | pkg/cache/inmemcache.go:84-118 | with the corrected counter, every value within the budget (any value under a zero budget) is stored and found, and a positive budget bounds the counter |
| CacheSpec.TrackedAgreesWhileCounterIsExact | pkg/cache/inmemcache.go:100-113 | for a new key that fits a positive budget, with a counter equal to the bytes stored, the corrected put and the put as written give the same store and error |
| CacheSpec.PutBitsResultNeverNil | pkg/cache/inmemcache.go:96-117 | the `error` that `putBits` returns is never nil, even when the value was stored |
| CacheSpec.CorrectedResultNilIffStored | pkg/cache/inmemcache.go:96-117 | with the corrected result, the error is nil if and only if the value was stored under its key |
| CacheSpec.EvictTestScenario | pkg/cache/inmemcache_test.go:63-90 | the evict test: the big value evicts `space0/key2` and `space0/key3`, keeps the freshly read `space0/key1`, and a later 300-byte value is refused as larger than the budget |
| Cache.LookupMatchesMap | pkg/cache/inmemcache.go:124-127 | reading the two maps is looking the key up in the entries ordered by touch time |
| Cache.SortByLastTouched | pkg/cache/inmemcache.go:171-173 | `sort.Slice` by touch time, as an insertion sort; the result holds the same entries with the same multiplicities |
| Cache.InsertByTouchOrdered | pkg/cache/inmemcache.go:171-173 | inserting into a list sorted by touch time keeps it sorted |
| Cache.SortByLastTouchedOrdered | pkg/cache/inmemcache.go:171-173 | entries with distinct touch times come out sorted oldest first |
| Cache.OrderedUnique | pkg/cache/inmemcache.go:171-173 | two lists sorted by touch time holding the same entries are equal, so the sort's result is unique |
| Cache.GetStep | pkg/cache/inmemcache.go:124-132 | a hit in the maps is the hit `Get` specifies, and touching it keeps maps, entries and counter coherent |
| Cache.PutCommit | pkg/cache/inmemcache.go:99-113 | storing the entry (or not) after the eviction gives the store and error `PutBits` specifies, with maps that represent it |
| Cache.ApplyRelayed | pkg/cache/inmemcache.go:56-63 | `listenerForMessages` on the store: a value that is not base64 leaves it as it was, otherwise `putBits` on the decoded bytes |
| Cache.InMemCache.constructor | pkg/cache/inmemcache.go:44-55 | an empty cache with the given budget that, given a relay, registers itself as its listener |
| Cache.InMemCache.ListenerForMessages | pkg/cache/inmemcache.go:56-63 | a value that is not base64 is dropped; otherwise the store becomes that of `putBits` on the decoded bytes |
| Cache.InMemCache.Put | pkg/cache/inmemcache.go:66-83 | a marshalling failure returns `NotJsonifiable` wrapping the marshaller's error and changes nothing; otherwise the store follows `putBits`, and the relay is handed the base64 of the JSON even when storing failed |
| Cache.InMemCache.PutBits | pkg/cache/inmemcache.go:84-118 | the new state and the returned error are `CacheSpec.PutBits`'s, and the class invariant holds |
| Cache.InMemCache.PutLocked | pkg/cache/inmemcache.go:99-113 | the locked part of the put yields `CacheSpec.PutBits`'s store and error |
| Cache.InMemCache.Get | pkg/cache/inmemcache.go:121-140 | a miss returns `NoItem` and changes nothing; a hit touches the entry and returns the decoded value or the decoder's own error |
| Cache.InMemCache.TouchEntry | pkg/cache/inmemcache.go:31-33 | the entry takes the current time and becomes the most recently touched |
| Cache.InMemCache.Evict | pkg/cache/inmemcache.go:143-158 | deletes the `EvictCount` oldest entries from the maps, and fails with `ObjectToLarge` exactly when they do not free the request |
| Cache.InMemCache.DeleteOldest | pkg/cache/inmemcache.go:147-149 | one loop round: returns the oldest entry's size and deletes it from its map |
| Cache.InMemCache.SortLastTouched | pkg/cache/inmemcache.go:160-175 | gathering every entry map by map and sorting by touch time gives exactly the entries oldest first |
| Cache.InMemCache.ReceiveFrame | pkg/cache/inmemcache.go:50-52 | a bus frame accepted by the relay whose listener is this cache is stored as `listenerForMessages` does; nothing is republished |
| Cache.PutThenGet | pkg/cache/inmemcache_test.go:44-48 | a put that reports the stored case (the nil `*CacheError` inside its `error`), followed by a get under the same name and key, gives a nil error and the value put |

## Left out

- The NATS connection (`init`, `Subscribe`, `Publish`, `Flush`) and the environment variables are not modelled. Publishing appends to `outbox`, the subscription is a call of `HandleCacheSync`, and the passphrase and UUID are constructor parameters. Publish errors are only logged by the source.
- The reader/writer lock and concurrency are not modelled: every operation runs to completion alone.
- Logging and `cacheTime` (written, never read) are not modelled.
- `time.Now()` is a logical clock that ticks once per touch, so touch times are distinct and the order of `sort.Slice` is determined. `sort.Slice` itself is modelled by an insertion sort on touch time.
- `cacheEntry` is a value, and a touch rewrites its map slot. The source shares one pointer between the map and the sorted list, but nothing observes that sharing between operations.
- The randomness of keys and IVs enters as parameters (`Draws`, `RandomRead`). JSON, base64, AES and SHA-256 are parameters too. The model does not capture that draws differ between sends.
- `Get` decodes into the caller's `valOut`; the model returns the decoded value, and does not model a partial fill after a decoding error.
- What `json.Unmarshal` leaves in `encryptedRelayMessage` after an error it returns is a parameter of the wire format (`cipherMessageLeft`). `Encrypted0` uses it, because the source ignores that error.
- `CacheChatter` is an interface in the source; the model uses the relay class directly.
- The `pad failure` branch of `DoAesCBCEncrypt` cannot be reached, because the padding is always block aligned. `DoAesCBCEncrypt` asserts this instead of returning that error.
- `amountFreed` in `evict` is an unbounded `nat`. As a `uint64` it could only wrap with 2^64 bytes stored.
- CacheSpec.PutBitsKeepsAccounting: proved only for budgets below 2^64/3. Near 2^64 the counter can wrap and the bounds fail.
- The example program, the NATS integration tests and `pkg/model/messages.go` are not part of this model.

## Findings

| source | as written | input that shows it | evidently intended | confidence | as-written member | corrected member |
|---|---|---|---|---|---|---|
| pkg/cache/inmemcache.go:100-106 | the counter adds every stored size and never subtracts evicted or replaced entries | budget 10, three puts of 6 bytes under new keys: the third evicts everything, fails with `ObjectToLarge`, and from then on every non-empty put fails | the counter equals the bytes stored, so a value within the budget is always stored | not executed | CacheSpec.CounterLockoutExample, CacheSpec.EmptiedStoreLocksOut | CacheSpec.PutBitsTracked, CacheSpec.TrackedPutStoresEveryFittingValue |
| pkg/cache/inmemcache.go:93-95 | the oversize check runs before the "0 means no size checks" test | budget 0, any 1-byte value: refused with `ExceedsTotalCacheSize` | a zero budget stores values of any size | not executed | CacheSpec.ZeroBudgetRejectsNonEmpty | CacheSpec.PutBitsTracked, CacheSpec.TrackedPutStoresEveryFittingValue |
| pkg/cache/inmemcache.go:96-117 | a nil `*CacheError` is returned as `error`, which is a non-nil interface | any successful put: `Put(...) != nil` is true | nil on success | not executed | CacheSpec.PutBitsResultNeverNil | CacheSpec.CorrectedPutBitsResult, CacheSpec.CorrectedResultNilIffStored |

`Cache.InMemCache` follows the code as written, so its contracts can be read against the source.
The corrected definitions are stated over the value model in `CacheSpec`.
`CacheSpec.TrackedAgreesWhileCounterIsExact` shows that they coincide with the code for a new key that fits the budget while the counter is exact.
