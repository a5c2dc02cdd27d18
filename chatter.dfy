/**
 * The replication relay (pkg/chatter/NatsChatter.go and pkg/chatter/base.go) with the bus
 * abstracted: publishing appends a frame to `outbox`, delivery from the bus is a call to
 * `HandleCacheSync`, and calls of the registered listener are recorded in `invocations`.
 */
module Chatter {
  import opened Basics
  import opened Library
  import opened Model
  import opened EncryptV0

  /** The two `protocolVersion` values: plain (`noEncryption0`) and encrypted (`encryption0`). */
  const NoEncryption0: int := 0
  const Encryption0: int := 1

  /** The node id used when no UUID can be generated. */
  const FallbackNodeID: string := "42"

  const CannotEncodeRelayMessage := "Unable to encode a cache relay message"
  const CannotEncodeCipherMessage := "Unable to encode a cipher cache relay message"
  const CannotEncodeEnvelope := "Unable to encode a replication message"
  const CannotDecodeMessageData := "Unable to base 64 decode message data"
  const CannotDecodeMessageKey := "Unable to base 64 decode messageKey"
  const CannotDecodeCipherData := "Unable to base 64 decode message cipher data"
  const CannotDecrypt := "Unable to decrypt message cipher data"
  const CannotUnmarshal := "Unable to unmarshal message data"

  /** `replicateCacheMessage`: the envelope published on the bus. */
  datatype ReplicateCacheMessage = ReplicateCacheMessage(protocolVersion: int, messageData: string, nodeID: string)

  /** `encryptedRelayMessage`: the wrapped message key and the encrypted payload, as base64 text. */
  datatype EncryptedRelayMessage = EncryptedRelayMessage(messageKey: string, cipherData: string)

  /**
   * The JSON and base64 codecs the relay calls. `cipherMessageLeft` is what a failed
   * `json.Unmarshal` leaves in an `encryptedRelayMessage` that starts zeroed: nothing after a
   * syntax error, the fields it could decode after a type error.
   */
  datatype Wire = Wire(
    relayMessage: Json<CacheRelayMessage>,
    envelope: Json<ReplicateCacheMessage>,
    cipherMessage: Json<EncryptedRelayMessage>,
    cipherMessageLeft: Bytes -> EncryptedRelayMessage,
    base64: Base64)

  ghost predicate LawfulWire(w: Wire) {
    LawfulJson(w.relayMessage) && LawfulJson(w.envelope) && LawfulJson(w.cipherMessage) && LawfulBase64(w.base64)
  }

  /** The three `rand.Read` calls of one encrypted send: the message key and the IVs of its two encryptions. */
  datatype Draws = Draws(messageKey: RandomRead<Key256>, keyIv: RandomRead<Block>, dataIv: RandomRead<Block>)

  /** An `ObjectListener` callback, identified by the object whose method it runs. */
  datatype Listener = Listener(owner: object)

  /** One call of the registered listener. */
  datatype Invocation = Invocation(listener: Listener, message: CacheRelayMessage)

  /** What one send does: publish a frame, give up after a logged encoding error, or panic. */
  datatype SendResult = Published(frame: Bytes) | Abandoned(reason: string) | Panicked(reason: string)

  /** What the relay makes of one bus message. */
  datatype Inbound =
    | Undecodable
    | SelfEcho
    | UnknownVersion(version: int)
    | Dropped(reason: string)
    | Accepted(message: CacheRelayMessage)
    | Crashed(reason: string)

  /** The frames a send hands to `nc.Publish`. */
  function Frames(r: SendResult): seq<Bytes> {
    if r.Published? then [r.frame] else []
  }

  /** The listener calls one inbound message causes. */
  function Invoked(listener: Option<Listener>, r: Inbound): seq<Invocation> {
    if r.Accepted? && listener.Some? then [Invocation(listener.value, r.message)] else []
  }

  /** The bytes of a cipher call whose error the caller discards (`x, _ := ...`): nil on error. */
  function BytesOrNil(r: CryptResult): Bytes {
    if r.Done? then r.bytes else []
  }

  /** What `sendReplicateMessageNoEncrypt0` publishes. */
  function PlainFrame(nodeID: string, wire: Wire, message: CacheRelayMessage): SendResult {
    match wire.relayMessage.marshal(message)
    case Failure(_) => Abandoned(CannotEncodeRelayMessage)
    case Success(bits) =>
      var syncMsg := ReplicateCacheMessage(NoEncryption0, wire.base64.encode(bits), nodeID);
      match wire.envelope.marshal(syncMsg)
      case Failure(_) => Abandoned(CannotEncodeEnvelope)
      case Success(frame) => Published(frame)
  }

  /** What `sendReplicateMessageEncrypt0` publishes; the errors of both encryptions are discarded. */
  function EncryptedFrame(nodeID: string, passphrase: string, wire: Wire, crypto: Crypto,
                          message: CacheRelayMessage, draws: Draws): SendResult
  {
    match wire.relayMessage.marshal(message)
    case Failure(_) => Abandoned(CannotEncodeRelayMessage)
    case Success(bits) =>
      var masterKey := MakeAesKey(crypto, passphrase);
      var keyDraw := MakeRandom256AesKey(draws.messageKey);
      if !keyDraw.Done? then Panicked(keyDraw.message)
      else
        var messageKey := keyDraw.bytes;
        var wrappedKey := BytesOrNil(Encrypt(crypto.aes, messageKey, masterKey, draws.keyIv));
        var payload := BytesOrNil(Encrypt(crypto.aes, bits, messageKey, draws.dataIv));
        var cipherMessage := EncryptedRelayMessage(wire.base64.encode(wrappedKey), wire.base64.encode(payload));
        match wire.cipherMessage.marshal(cipherMessage)
        case Failure(_) => Abandoned(CannotEncodeCipherMessage)
        case Success(cipherBits) =>
          var syncMsg := ReplicateCacheMessage(Encryption0, wire.base64.encode(cipherBits), nodeID);
          match wire.envelope.marshal(syncMsg)
          case Failure(_) => Abandoned(CannotEncodeEnvelope)
          case Success(frame) => Published(frame)
  }

  /** What `ReplicateCachedObject` publishes: plain without a passphrase, encrypted with one. */
  function Outbound(nodeID: string, passphrase: string, wire: Wire, crypto: Crypto,
                    message: CacheRelayMessage, draws: Draws): SendResult
  {
    if |passphrase| == 0 then PlainFrame(nodeID, wire, message)
    else EncryptedFrame(nodeID, passphrase, wire, crypto, message, draws)
  }

  /** What `processUnencrypted` makes of a plain envelope. */
  function Unencrypted(wire: Wire, msg: ReplicateCacheMessage): Inbound {
    match wire.base64.decode(msg.messageData)
    case Failure(_) => Dropped(CannotDecodeMessageData)
    case Success(bits) =>
      match wire.relayMessage.unmarshal(bits)
      case Failure(_) => Dropped(CannotUnmarshal)
      case Success(relayMsg) => Accepted(relayMsg)
  }

  /** The `encryptedRelayMessage` `json.Unmarshal` fills in from `bits`; its error is discarded, so a failed decode leaves what it filled in. */
  function CipherMessageAsLeft(wire: Wire, bits: Bytes): EncryptedRelayMessage {
    var r := wire.cipherMessage.unmarshal(bits);
    if r.Success? then r.value else wire.cipherMessageLeft(bits)
  }

  /** What `processEncrypted0` makes of an encrypted envelope under the receiver's passphrase. */
  function Encrypted0(passphrase: string, wire: Wire, crypto: Crypto, msg: ReplicateCacheMessage): Inbound {
    match wire.base64.decode(msg.messageData)
    case Failure(_) => Dropped(CannotDecodeMessageData)
    case Success(cipherMessageBits) =>
      var cipherMessage := CipherMessageAsLeft(wire, cipherMessageBits);
      var masterKey := MakeAesKey(crypto, passphrase);
      match wire.base64.decode(cipherMessage.messageKey)
      case Failure(_) => Dropped(CannotDecodeMessageKey)
      case Success(messageKeyCipherBits) =>
        var keyResult := Decrypt(crypto.aes, messageKeyCipherBits, masterKey);
        if keyResult.Panic? then Crashed(keyResult.message)
        else
          var messageKey := BytesOrNil(keyResult);
          match wire.base64.decode(cipherMessage.cipherData)
          case Failure(_) => Dropped(CannotDecodeCipherData)
          case Success(msgDataCipherBits) =>
            var plain := Decrypt(crypto.aes, msgDataCipherBits, messageKey);
            if plain.Panic? then Crashed(plain.message)
            else if plain.Error? then Dropped(CannotDecrypt)
            else
              match wire.relayMessage.unmarshal(plain.bytes)
              case Failure(_) => Dropped(CannotUnmarshal)
              case Success(relayMsg) => Accepted(relayMsg)
  }

  /**
   * What `handleCacheSync` makes of the bytes of one bus message: only a decodable envelope
   * from another node with a known protocol version can reach the listener.
   */
  function Receive(nodeID: string, passphrase: string, wire: Wire, crypto: Crypto, data: Bytes): (r: Inbound)
    ensures r.Undecodable? <==> wire.envelope.unmarshal(data).Failure?
    ensures r.SelfEcho? <==> wire.envelope.unmarshal(data).Success? && wire.envelope.unmarshal(data).value.nodeID == nodeID
    ensures r.UnknownVersion? <==>
      var x := wire.envelope.unmarshal(data);
      x.Success? && x.value.nodeID != nodeID &&
      x.value.protocolVersion != NoEncryption0 && x.value.protocolVersion != Encryption0
    ensures r.Accepted? ==>
      var x := wire.envelope.unmarshal(data);
      x.Success? && x.value.nodeID != nodeID &&
      (x.value.protocolVersion == NoEncryption0 || x.value.protocolVersion == Encryption0)
  {
    match wire.envelope.unmarshal(data)
    case Failure(_) => Undecodable
    case Success(x) =>
      if x.nodeID == nodeID then SelfEcho
      else if x.protocolVersion == NoEncryption0 then Unencrypted(wire, x)
      else if x.protocolVersion == Encryption0 then Encrypted0(passphrase, wire, crypto, x)
      else UnknownVersion(x.protocolVersion)
  }

  /** `NatMessagesChatterRelay`, the NATS-backed implementation of `CacheChatter`. */
  class NatMessagesChatterRelay {
    const nodeID: string
    const masterPassPhrase: string
    const wire: Wire
    const crypto: Crypto
    var objectListener: Option<Listener>
    /** The frames handed to `nc.Publish`, oldest first. */
    var outbox: seq<Bytes>
    /** The calls of the registered listener, oldest first. */
    var invocations: seq<Invocation>

    /**
     * `NewNatsMessageChatterRelay` with the environment already read: the node id is the
     * generated UUID, or "42" when generation failed; no listener yet, nothing sent.
     */
    constructor (passphrase: string, uuid: Option<string>, wire: Wire, crypto: Crypto)
      ensures nodeID == (if uuid.Some? then uuid.value else FallbackNodeID)
      ensures masterPassPhrase == passphrase && this.wire == wire && this.crypto == crypto
      ensures objectListener == None && outbox == [] && invocations == []
    {
      masterPassPhrase := passphrase;
      if uuid.None? {
        nodeID := FallbackNodeID;
      } else {
        nodeID := uuid.value;
      }
      this.wire := wire;
      this.crypto := crypto;
      objectListener := None;
      outbox := [];
      invocations := [];
    }

    /** `ReplicateCachedObject`: the protocol version is chosen by whether a passphrase is set. */
    method ReplicateCachedObject(message: CacheRelayMessage, draws: Draws) returns (result: SendResult)
      modifies this`outbox
      ensures result == Outbound(nodeID, masterPassPhrase, wire, crypto, message, draws)
      ensures outbox == old(outbox) + Frames(result)
    {
      if |masterPassPhrase| == 0 {
        result := SendReplicateMessageNoEncrypt0(message);
      } else {
        result := SendReplicateMessageEncrypt0(message, draws);
      }
    }

    method SendReplicateMessageNoEncrypt0(message: CacheRelayMessage) returns (result: SendResult)
      modifies this`outbox
      ensures result == PlainFrame(nodeID, wire, message)
      ensures outbox == old(outbox) + Frames(result)
    {
      var syncMsg := ReplicateCacheMessage(0, "", "");
      syncMsg := syncMsg.(nodeID := nodeID);
      var bits := wire.relayMessage.marshal(message);
      if bits.Failure? {
        return Abandoned(CannotEncodeRelayMessage);
      }
      syncMsg := syncMsg.(messageData := wire.base64.encode(bits.value));
      syncMsg := syncMsg.(protocolVersion := NoEncryption0);
      var frame := wire.envelope.marshal(syncMsg);
      if frame.Failure? {
        return Abandoned(CannotEncodeEnvelope);
      }
      outbox := outbox + [frame.value];
      return Published(frame.value);
    }

    method SendReplicateMessageEncrypt0(message: CacheRelayMessage, draws: Draws) returns (result: SendResult)
      modifies this`outbox
      ensures result == EncryptedFrame(nodeID, masterPassPhrase, wire, crypto, message, draws)
      ensures outbox == old(outbox) + Frames(result)
    {
      var syncMsg := ReplicateCacheMessage(0, "", "");
      syncMsg := syncMsg.(nodeID := nodeID);
      var bits := wire.relayMessage.marshal(message);
      if bits.Failure? {
        return Abandoned(CannotEncodeRelayMessage);
      }
      var cipherMessage := EncryptedRelayMessage("", "");
      var masterKey := MakeAesKey(crypto, masterPassPhrase);
      var keyDraw := MakeRandom256AesKey(draws.messageKey);
      if !keyDraw.Done? {
        return Panicked(keyDraw.message);
      }
      var messageKeyPlainText := keyDraw.bytes;
      var messageKeyCipherText := DoAesCBCEncrypt(crypto.aes, messageKeyPlainText, masterKey, draws.keyIv);
      cipherMessage := cipherMessage.(messageKey := wire.base64.encode(BytesOrNil(messageKeyCipherText)));
      var messageCipherText := DoAesCBCEncrypt(crypto.aes, bits.value, messageKeyPlainText, draws.dataIv);
      cipherMessage := cipherMessage.(cipherData := wire.base64.encode(BytesOrNil(messageCipherText)));
      var cipherBits := wire.cipherMessage.marshal(cipherMessage);
      if cipherBits.Failure? {
        return Abandoned(CannotEncodeCipherMessage);
      }
      syncMsg := syncMsg.(messageData := wire.base64.encode(cipherBits.value));
      syncMsg := syncMsg.(protocolVersion := Encryption0);
      var frame := wire.envelope.marshal(syncMsg);
      if frame.Failure? {
        return Abandoned(CannotEncodeEnvelope);
      }
      outbox := outbox + [frame.value];
      return Published(frame.value);
    }

    /** `RegisterListenerForReplicatedObjects`: the new listener replaces any earlier one. */
    method RegisterListenerForReplicatedObjects(listener: Listener)
      modifies this`objectListener
      ensures objectListener == Some(listener)
    {
      objectListener := Some(listener);
    }

    /** `handleCacheSync`: decode the envelope, drop self-echo, dispatch on the protocol version. */
    method HandleCacheSync(data: Bytes) returns (result: Inbound)
      modifies this`invocations
      ensures result == Receive(nodeID, masterPassPhrase, wire, crypto, data)
      ensures invocations == old(invocations) + Invoked(objectListener, result)
    {
      var x := wire.envelope.unmarshal(data);
      if x.Failure? {
        return Undecodable;
      }
      if x.value.nodeID == nodeID {
        return SelfEcho;
      }
      if x.value.protocolVersion == NoEncryption0 {
        result := ProcessUnencrypted(x.value);
      } else if x.value.protocolVersion == Encryption0 {
        result := ProcessEncrypted0(x.value);
      } else {
        result := UnknownVersion(x.value.protocolVersion);
      }
    }

    method ProcessUnencrypted(msg: ReplicateCacheMessage) returns (result: Inbound)
      modifies this`invocations
      ensures result == Unencrypted(wire, msg)
      ensures invocations == old(invocations) + Invoked(objectListener, result)
    {
      var bits := wire.base64.decode(msg.messageData);
      if bits.Failure? {
        return Dropped(CannotDecodeMessageData);
      }
      var relayMsg := wire.relayMessage.unmarshal(bits.value);
      if relayMsg.Failure? {
        return Dropped(CannotUnmarshal);
      }
      if objectListener.Some? {
        invocations := invocations + [Invocation(objectListener.value, relayMsg.value)];
      }
      return Accepted(relayMsg.value);
    }

    method ProcessEncrypted0(msg: ReplicateCacheMessage) returns (result: Inbound)
      modifies this`invocations
      ensures result == Encrypted0(masterPassPhrase, wire, crypto, msg)
      ensures invocations == old(invocations) + Invoked(objectListener, result)
    {
      var cipherMessageBits := wire.base64.decode(msg.messageData);
      if cipherMessageBits.Failure? {
        return Dropped(CannotDecodeMessageData);
      }
      var cipherMessage := CipherMessageAsLeft(wire, cipherMessageBits.value);
      var masterKey := MakeAesKey(crypto, masterPassPhrase);
      var messageKeyCipherBits := wire.base64.decode(cipherMessage.messageKey);
      if messageKeyCipherBits.Failure? {
        return Dropped(CannotDecodeMessageKey);
      }
      var keyResult := DoAesCBCDecrypt(crypto.aes, messageKeyCipherBits.value, masterKey);
      if keyResult.Panic? {
        return Crashed(keyResult.message);
      }
      var messageKey := BytesOrNil(keyResult);
      var msgDataCipherBits := wire.base64.decode(cipherMessage.cipherData);
      if msgDataCipherBits.Failure? {
        return Dropped(CannotDecodeCipherData);
      }
      var plainBits := DoAesCBCDecrypt(crypto.aes, msgDataCipherBits.value, messageKey);
      if plainBits.Panic? {
        return Crashed(plainBits.message);
      }
      if plainBits.Error? {
        return Dropped(CannotDecrypt);
      }
      var relayMsg := wire.relayMessage.unmarshal(plainBits.bytes);
      if relayMsg.Failure? {
        return Dropped(CannotUnmarshal);
      }
      if objectListener.Some? {
        invocations := invocations + [Invocation(objectListener.value, relayMsg.value)];
      }
      return Accepted(relayMsg.value);
    }
  }

  /** Every published frame decodes to an envelope naming the sender and the version its passphrase selects. */
  lemma PublishedFrameNamesSender(nodeID: string, passphrase: string, wire: Wire, crypto: Crypto,
                                  message: CacheRelayMessage, draws: Draws)
    requires LawfulJson(wire.envelope)
    requires Outbound(nodeID, passphrase, wire, crypto, message, draws).Published?
    ensures var x := wire.envelope.unmarshal(Outbound(nodeID, passphrase, wire, crypto, message, draws).frame);
      x.Success? && x.value.nodeID == nodeID &&
      x.value.protocolVersion == (if |passphrase| == 0 then NoEncryption0 else Encryption0)
  {
  }

  /** A node never acts on its own frames, whatever its passphrase. */
  lemma OwnFramesAreIgnored(nodeID: string, senderPass: string, receiverPass: string, wire: Wire, crypto: Crypto,
                            message: CacheRelayMessage, draws: Draws)
    requires LawfulJson(wire.envelope)
    requires Outbound(nodeID, senderPass, wire, crypto, message, draws).Published?
    ensures Receive(nodeID, receiverPass, wire, crypto, Outbound(nodeID, senderPass, wire, crypto, message, draws).frame) == SelfEcho
  {
    PublishedFrameNamesSender(nodeID, senderPass, wire, crypto, message, draws);
  }

  /**
   * A plain frame from another node is delivered unchanged. The receiver's passphrase plays
   * no part: a node with a passphrase still accepts plain frames.
   */
  lemma PlainRoundTrip(sender: string, receiver: string, receiverPass: string, wire: Wire, crypto: Crypto,
                       message: CacheRelayMessage)
    requires LawfulWire(wire) && sender != receiver
    requires PlainFrame(sender, wire, message).Published?
    ensures Receive(receiver, receiverPass, wire, crypto, PlainFrame(sender, wire, message).frame) == Accepted(message)
  {
    var bits := wire.relayMessage.marshal(message).value;
    var syncMsg := ReplicateCacheMessage(NoEncryption0, wire.base64.encode(bits), sender);
    assert wire.envelope.unmarshal(PlainFrame(sender, wire, message).frame) == Success(syncMsg);
    assert wire.base64.decode(syncMsg.messageData) == Success(bits);
  }

  /**
   * An encrypted frame from another node sharing the passphrase is delivered unchanged,
   * provided the random message key and the marshalled message neither start nor end with
   * a zero byte (`unPadTheZeros` trims both ends; a JSON object starts with `{` and ends with `}`).
   */
  lemma EncryptedRoundTrip(sender: string, receiver: string, passphrase: string, wire: Wire, crypto: Crypto,
                           message: CacheRelayMessage, draws: Draws)
    requires LawfulWire(wire) && LawfulCrypto(crypto) && sender != receiver && |passphrase| > 0
    requires draws.messageKey.Filled? && draws.keyIv.Filled? && draws.dataIv.Filled?
    requires NoZeroEnds(draws.messageKey.bytes)
    requires wire.relayMessage.marshal(message).Success? ==> NoZeroEnds(wire.relayMessage.marshal(message).value)
    requires Outbound(sender, passphrase, wire, crypto, message, draws).Published?
    ensures Receive(receiver, passphrase, wire, crypto, Outbound(sender, passphrase, wire, crypto, message, draws).frame)
            == Accepted(message)
  {
    var aes := crypto.aes;
    var bits := wire.relayMessage.marshal(message).value;
    var masterKey := MakeAesKey(crypto, passphrase);
    var messageKey: Bytes := draws.messageKey.bytes;
    var wrapped := Encrypt(aes, messageKey, masterKey, draws.keyIv);
    var payload := Encrypt(aes, bits, messageKey, draws.dataIv);
    assert wrapped.Done? && payload.Done?;
    var cipherMessage := EncryptedRelayMessage(wire.base64.encode(wrapped.bytes), wire.base64.encode(payload.bytes));
    var cipherBits := wire.cipherMessage.marshal(cipherMessage).value;
    var syncMsg := ReplicateCacheMessage(Encryption0, wire.base64.encode(cipherBits), sender);
    var frame := Outbound(sender, passphrase, wire, crypto, message, draws).frame;
    assert frame == wire.envelope.marshal(syncMsg).value;
    assert wire.envelope.unmarshal(frame) == Success(syncMsg);
    assert wire.cipherMessage.unmarshal(cipherBits) == Success(cipherMessage);
    EncryptDecryptRoundTripIff(aes, messageKey, masterKey, draws.keyIv);
    EncryptDecryptRoundTripIff(aes, bits, messageKey, draws.dataIv);
    assert Decrypt(aes, wrapped.bytes, masterKey) == Done(messageKey);
    assert Decrypt(aes, payload.bytes, messageKey) == Done(bits);
    assert Encrypted0(passphrase, wire, crypto, syncMsg) == Accepted(message);
  }

  /**
   * When the IV read for wrapping the message key fails, the sender still publishes, with an
   * empty wrapped key; every other node then panics decrypting it, whatever its passphrase.
   */
  lemma FailedKeyIvCrashesReceivers(sender: string, receiver: string, senderPass: string, receiverPass: string,
                                    wire: Wire, crypto: Crypto, message: CacheRelayMessage, draws: Draws)
    requires LawfulWire(wire) && sender != receiver && |senderPass| > 0
    requires draws.keyIv.ReadFailed?
    requires Outbound(sender, senderPass, wire, crypto, message, draws).Published?
    ensures Receive(receiver, receiverPass, wire, crypto, Outbound(sender, senderPass, wire, crypto, message, draws).frame).Crashed?
  {
    var aes := crypto.aes;
    var bits := wire.relayMessage.marshal(message).value;
    var messageKey: Bytes := draws.messageKey.bytes;
    var payload := BytesOrNil(Encrypt(aes, bits, messageKey, draws.dataIv));
    var cipherMessage := EncryptedRelayMessage(wire.base64.encode([]), wire.base64.encode(payload));
    var cipherBits := wire.cipherMessage.marshal(cipherMessage).value;
    var syncMsg := ReplicateCacheMessage(Encryption0, wire.base64.encode(cipherBits), sender);
    var frame := Outbound(sender, senderPass, wire, crypto, message, draws).frame;
    assert frame == wire.envelope.marshal(syncMsg).value;
    assert wire.envelope.unmarshal(frame) == Success(syncMsg);
    assert wire.cipherMessage.unmarshal(cipherBits) == Success(cipherMessage);
    assert wire.base64.decode(cipherMessage.messageKey) == Success([]);
    assert Decrypt(aes, [], MakeAesKey(crypto, receiverPass)).Panic?;
  }

  /**
   * A message key drawn with a zero first or last byte is shortened by the receiver's trimming;
   * unless the shortened key happens to have a valid AES length, the message is dropped.
   */
  lemma ZeroEndedMessageKeyIsDropped(sender: string, receiver: string, passphrase: string, wire: Wire, crypto: Crypto,
                                     message: CacheRelayMessage, draws: Draws)
    requires LawfulWire(wire) && LawfulCrypto(crypto) && sender != receiver && |passphrase| > 0
    requires draws.messageKey.Filled? && draws.keyIv.Filled? && draws.dataIv.Filled?
    requires !ValidKeyLength(|UnPadTheZeros(draws.messageKey.bytes)|)
    requires Outbound(sender, passphrase, wire, crypto, message, draws).Published?
    ensures Receive(receiver, passphrase, wire, crypto, Outbound(sender, passphrase, wire, crypto, message, draws).frame)
            == Dropped(CannotDecrypt)
  {
    var aes := crypto.aes;
    var bits := wire.relayMessage.marshal(message).value;
    var masterKey := MakeAesKey(crypto, passphrase);
    var messageKey: Bytes := draws.messageKey.bytes;
    var wrapped := Encrypt(aes, messageKey, masterKey, draws.keyIv);
    var payload := Encrypt(aes, bits, messageKey, draws.dataIv);
    assert wrapped.Done? && payload.Done?;
    var cipherMessage := EncryptedRelayMessage(wire.base64.encode(wrapped.bytes), wire.base64.encode(payload.bytes));
    var cipherBits := wire.cipherMessage.marshal(cipherMessage).value;
    var syncMsg := ReplicateCacheMessage(Encryption0, wire.base64.encode(cipherBits), sender);
    var frame := Outbound(sender, passphrase, wire, crypto, message, draws).frame;
    assert frame == wire.envelope.marshal(syncMsg).value;
    assert wire.envelope.unmarshal(frame) == Success(syncMsg);
    assert wire.cipherMessage.unmarshal(cipherBits) == Success(cipherMessage);
    EncryptDecryptTrims(aes, messageKey, masterKey, draws.keyIv);
    EncryptShape(aes, bits, messageKey, draws.dataIv);
    var trimmed := UnPadTheZeros(messageKey);
    assert Decrypt(aes, wrapped.bytes, masterKey) == Done(trimmed);
    assert Decrypt(aes, payload.bytes, trimmed).Error?;
  }

  /**
   * A cipher message that fails to decode is not thrown away: the fields decoded before the
   * failure are used. A message key left in place that is not base64 drops the message, and
   * one left empty (nothing decoded) crashes the receiver, which decrypts an empty ciphertext.
   */
  lemma UndecodableCipherMessageKeepsFilledFields(passphrase: string, wire: Wire, crypto: Crypto,
                                                  msg: ReplicateCacheMessage, bits: Bytes)
    requires wire.base64.decode(msg.messageData) == Success(bits)
    requires wire.cipherMessage.unmarshal(bits).Failure?
    ensures wire.base64.decode(wire.cipherMessageLeft(bits).messageKey).Failure? ==>
      Encrypted0(passphrase, wire, crypto, msg) == Dropped(CannotDecodeMessageKey)
    ensures wire.base64.decode(wire.cipherMessageLeft(bits).messageKey) == Success([]) ==>
      Encrypted0(passphrase, wire, crypto, msg).Crashed?
  {
  }
}
