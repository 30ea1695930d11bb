/** Building and validating messages, with an ideal hash and ideal signatures. */
module Integrity {
  import opened Options
  import opened Messages
  import opened CanonicalJson
  import opened Framing
  import Handshake
  import AnyPeer

  /** What comes from outside: the hash of a text as bytes, signatures, the public key of a private key,
      and the schema's check of one field. */
  datatype Crypto = Crypto(
    digest: string -> seq<int>,
    sign: (string, string) -> string,
    verify: (string, string, string) -> bool,
    publicKey: string -> string,
    fieldOk: (string, Value) -> bool)

  const FIELDS: seq<string> :=
    ["incidentId", "originDeviceId", "communityId", "category", "description", "priority", "createdAt", "originTimestamp",
     "latitude", "longitude", "locationAccuracy", "altitude", "locationTimestamp", "manualLocation", "messageVersion", "expiresAt"]

  // ----- the hash as hexadecimal text -----

  function HexByte(b: int): string {
    if 0 <= b < 256 then [HEX[b / 16], HEX[b % 16]] else []
  }

  function ToHex(bytes: seq<int>): string {
    if bytes == [] then [] else HexByte(bytes[0]) + ToHex(bytes[1..])
  }

  ghost predicate AreBytes(bytes: seq<int>) {
    forall i :: 0 <= i < |bytes| ==> 0 <= bytes[i] < 256
  }

  lemma {:induction false} ToHexInjective(a: seq<int>, b: seq<int>)
    requires AreBytes(a) && AreBytes(b) && ToHex(a) == ToHex(b)
    ensures a == b
  {
    if a != [] && b != [] {
      var x, y := ToHex(a), ToHex(b);
      assert x[0] == HEX[a[0] / 16] && y[0] == HEX[b[0] / 16] && x[1] == HEX[a[0] % 16] && y[1] == HEX[b[0] % 16];
      HexRoundTrip(a[0] / 16);
      HexRoundTrip(b[0] / 16);
      HexRoundTrip(a[0] % 16);
      HexRoundTrip(b[0] % 16);
      assert x[2..] == ToHex(a[1..]) && y[2..] == ToHex(b[1..]);
      ToHexInjective(a[1..], b[1..]);
      assert a == [a[0]] + a[1..] && b == [b[0]] + b[1..];
    }
  }

  lemma {:induction false} ToHexBarFree(bytes: seq<int>)
    ensures BarFree(ToHex(bytes))
  {
    if bytes != [] { ToHexBarFree(bytes[1..]); }
  }

  /** Two lower-case digits for each byte, the high one first. */
  lemma {:induction false} ToHexDigits(bytes: seq<int>, k: nat)
    requires AreBytes(bytes) && k < |bytes|
    ensures |ToHex(bytes)| == 2 * |bytes|
    ensures var high, low := ToHex(bytes)[2 * k], ToHex(bytes)[2 * k + 1];
            && ('0' <= high <= '9' || 'a' <= high <= 'f') && ('0' <= low <= '9' || 'a' <= low <= 'f')
            && HexValue(high).Some? && HexValue(low).Some? && bytes[k] == 16 * HexValue(high).value + HexValue(low).value
  {
    HexRoundTrip(bytes[0] / 16);
    HexRoundTrip(bytes[0] % 16);
    if k > 0 {
      ToHexDigits(bytes[1..], k - 1);
    } else if |bytes| > 1 {
      ToHexDigits(bytes[1..], 0);
    }
  }

  function ComputePayloadHash(c: Crypto, payload: Payload): string {
    ToHex(c.digest(StableStringify(payload)))
  }

  // ----- the schema -----

  predicate HasKey(p: Payload, key: string) {
    exists i :: 0 <= i < |p| && p[i].key == key
  }

  function Get(p: Payload, key: string): (v: Value)
    requires HasKey(p, key)
    ensures Entry(key, v) in p
  {
    if p[0].key == key then p[0].value
    else
      assert forall i :: 1 <= i < |p| ==> p[i] == p[1..][i - 1];
      Get(p[1..], key)
  }

  function TextOf(p: Payload, key: string): string {
    if HasKey(p, key) && Get(p, key).Text? then Get(p, key).chars else ""
  }

  /** `safeParse`: every field present and well formed; the result has the fields in schema order and
      drops every other key. */
  function SafeParse(c: Crypto, payload: Payload): Option<Payload> {
    if forall k | 0 <= k < |FIELDS| :: HasKey(payload, FIELDS[k]) && c.fieldOk(FIELDS[k], Get(payload, FIELDS[k])) then
      Some(seq(|FIELDS|, k requires 0 <= k < |FIELDS| && HasKey(payload, FIELDS[k]) => Entry(FIELDS[k], Get(payload, FIELDS[k]))))
    else None
  }

  lemma FieldsAreDistinct()
    ensures forall i, j :: 0 <= i < j < |FIELDS| ==> FIELDS[i] != FIELDS[j]
  {}

  /** The sixteen fields of a transmitted report, and what parsing leaves of a payload. */
  lemma ParsedFields(c: Crypto, payload: Payload, key: string)
    requires SafeParse(c, payload).Some?
    ensures key in {"incidentId", "originDeviceId", "communityId", "category", "description", "priority", "createdAt", "originTimestamp",
                    "latitude", "longitude", "locationAccuracy", "altitude", "locationTimestamp", "manualLocation", "messageVersion",
                    "expiresAt"}
            <==> HasKey(SafeParse(c, payload).value, key)
    ensures HasKey(SafeParse(c, payload).value, key) ==> HasKey(payload, key) && Entry(key, Get(payload, key)) in SafeParse(c, payload).value
  {
    var data := SafeParse(c, payload).value;
    assert forall k :: 0 <= k < |FIELDS| ==> data[k] == Entry(FIELDS[k], Get(payload, FIELDS[k]));
    if key in FIELDS {
      var k :| 0 <= k < |FIELDS| && FIELDS[k] == key;
      assert data[k].key == key;
    }
  }

  lemma GetUnique(p: Payload, e: Entry)
    requires DistinctKeys(p) && e in p
    ensures HasKey(p, e.key) && Get(p, e.key) == e.value
  {
    var i :| 0 <= i < |p| && p[i] == e;
    var j :| 0 <= j < |p| && p[j] == Entry(e.key, Get(p, e.key));
  }

  // ----- messages -----

  function BuildEmergencyMessage(c: Crypto, payload: Payload, originDeviceId: string, timestamp: string, privateKey: string): Message {
    var payloadHash := ComputePayloadHash(c, payload);
    var expiresAt := TextOf(payload, "expiresAt");
    var messageId := TextOf(payload, "incidentId");
    Message(messageId, originDeviceId, Handshake.PROTOCOL_VERSION, timestamp, payload, payloadHash, expiresAt,
            c.sign(privateKey, SignaturePayload(Triple(messageId, payloadHash, expiresAt))), c.publicKey(privateKey))
  }

  /** The environment the relay sees: everything the validation asks except the expiry. */
  function RelayEnv(c: Crypto, parseDate: string -> Option<int>): Env {
    Env(parseDate, (m: Message) =>
      Handshake.IsProtocolVersionSupported(m.protocolVersion)
      && SafeParse(c, m.payload).Some?
      && ComputePayloadHash(c, SafeParse(c, m.payload).value) == m.payloadHash
      && c.verify(m.originPublicKey, m.signature, SignaturePayload(Triple(m.messageId, m.payloadHash, m.expiresAt))))
  }

  datatype ValidationResult = Valid | UnsupportedProtocolVersion | MalformedPayload | HashMismatch | InvalidSignature | Expired

  function ValidateEmergencyMessage(c: Crypto, parseDate: string -> Option<int>, m: Message, now: int): ValidationResult {
    if !Handshake.IsProtocolVersionSupported(m.protocolVersion) then UnsupportedProtocolVersion
    else
      match SafeParse(c, m.payload)
      case None => MalformedPayload
      case Some(data) =>
        if ComputePayloadHash(c, data) != m.payloadHash then HashMismatch
        else if !c.verify(m.originPublicKey, m.signature, SignaturePayload(Triple(m.messageId, m.payloadHash, m.expiresAt))) then
          InvalidSignature
        else if IsExpired(RelayEnv(c, parseDate), m, now) then Expired
        else Valid
  }

  /** Only the last stage depends on the clock; so the chain accepts exactly what the relay accepts. */
  lemma ValidationIsAcceptance(c: Crypto, parseDate: string -> Option<int>, m: Message, now: int)
    ensures ValidateEmergencyMessage(c, parseDate, m, now).Valid? <==> Accepts(RelayEnv(c, parseDate), m, now)
    ensures ValidateEmergencyMessage(c, parseDate, m, now).Expired? <==>
              RelayEnv(c, parseDate).checks(m) && IsExpired(RelayEnv(c, parseDate), m, now)
  {}

  /** The five stages in their order: each answer, with what it says of the message. */
  lemma StagesInOrder(c: Crypto, parseDate: string -> Option<int>, m: Message, now: int)
    ensures var supported := m.protocolVersion == 1;
            var data := SafeParse(c, m.payload);
            var hashed := data.Some? && m.payloadHash == ToHex(c.digest(StableStringify(data.value)));
            var signed := c.verify(m.originPublicKey, m.signature, m.messageId + "|" + m.payloadHash + "|" + m.expiresAt);
            var current := match parseDate(m.expiresAt) case None => true case Some(at) => now < at;
            match ValidateEmergencyMessage(c, parseDate, m, now)
            case UnsupportedProtocolVersion => !supported
            case MalformedPayload => supported && data.None?
            case HashMismatch => supported && data.Some? && !hashed
            case InvalidSignature => supported && hashed && !signed
            case Expired => supported && hashed && signed && !current
            case Valid => supported && hashed && signed && current
  {}

  // ----- ideal cryptography -----

  ghost predicate IdealHash(c: Crypto) {
    && (forall s :: AreBytes(c.digest(s)))
    && (forall s, t :: c.digest(s) == c.digest(t) ==> s == t)
  }

  /** Fields that pass the schema print as JSON: numbers are finite. */
  ghost predicate FieldsPrint(c: Crypto) {
    forall k, v :: c.fieldOk(k, v) ==> Printable(v)
  }

  /** A payload as a device builds it: an object, with printable values. */
  ghost predicate Proper(p: Payload) {
    DistinctKeys(p) && forall e :: e in p ==> Printable(e.value)
  }

  /** What the signature of a built message covers. */
  function SignedTriple(c: Crypto, p: Payload): Triple {
    Triple(TextOf(p, "incidentId"), ComputePayloadHash(c, p), TextOf(p, "expiresAt"))
  }

  function MessageTriple(m: Message): Triple {
    Triple(m.messageId, m.payloadHash, m.expiresAt)
  }

  /** Whatever verifies under this key was signed by its owner, who signs only what it builds. */
  ghost predicate Honest(c: Crypto, publicKey: string, built: set<Payload>) {
    && (forall p :: p in built ==> Proper(p))
    && (forall signature, text :: c.verify(publicKey, signature, text) ==>
          exists p :: p in built && text == SignaturePayload(SignedTriple(c, p)))
  }

  /** And what it built, it signed. */
  ghost predicate Signed(c: Crypto, publicKey: string, p: Payload) {
    exists signature :: c.verify(publicKey, signature, SignaturePayload(SignedTriple(c, p)))
  }

  /** Some part that the signed text can be read to have for its hash, other than the hash itself, is the
      hash of a payload that passes the schema. */
  ghost predicate HidesHash(c: Crypto, p: Payload) {
    exists q :: SafeParse(c, q).Some? && ComputePayloadHash(c, SafeParse(c, q).value) in InnerParts(SignedTriple(c, p))
  }

  /** The message and the payload agree on the id, the expiry and every schema field. */
  ghost predicate Agrees(c: Crypto, m: Message, p: Payload) {
    && m.messageId == TextOf(p, "incidentId") && m.expiresAt == TextOf(p, "expiresAt")
    && SafeParse(c, m.payload).Some? && SameEntries(SafeParse(c, m.payload).value, p)
  }

  lemma HashInjective(c: Crypto, a: Payload, b: Payload)
    requires IdealHash(c) && ComputePayloadHash(c, a) == ComputePayloadHash(c, b)
    requires DistinctKeys(a) && DistinctKeys(b) && forall e :: e in a || e in b ==> Printable(e.value)
    ensures SameEntries(a, b)
  {
    ToHexInjective(c.digest(StableStringify(a)), c.digest(StableStringify(b)));
    CanonicalForm(a, b);
  }

  lemma ParsedPrints(c: Crypto, payload: Payload)
    requires FieldsPrint(c) && SafeParse(c, payload).Some?
    ensures var data := SafeParse(c, payload).value;
            DistinctKeys(data) && (forall e :: e in data ==> Printable(e.value) && e in payload)
  {
    FieldsAreDistinct();
  }

  lemma HashIsBarFree(c: Crypto, p: Payload)
    ensures BarFree(ComputePayloadHash(c, p))
  {
    ToHexBarFree(c.digest(StableStringify(p)));
  }

  /** A message that validates and carries the signed text of a built payload agrees with it, unless that
      text hides another hash. */
  lemma CarriedIsAgreed(c: Crypto, parseDate: string -> Option<int>, m: Message, now: int, p: Payload)
    requires IdealHash(c) && FieldsPrint(c) && Proper(p) && !HidesHash(c, p)
    requires ValidateEmergencyMessage(c, parseDate, m, now).Valid?
    requires SignaturePayload(MessageTriple(m)) == SignaturePayload(SignedTriple(c, p))
    ensures Agrees(c, m, p)
  {
    var data := SafeParse(c, m.payload).value;
    HashIsBarFree(c, p);
    HashIsBarFree(c, data);
    ReadingTakesInnerPart(SignedTriple(c, p), MessageTriple(m));
    ParsedPrints(c, m.payload);
    HashInjective(c, data, p);
  }

  /** The message that carries a payload under one reading of a signed text. */
  function Carrying(q: Payload, u: Triple, signature: string, publicKey: string): Message {
    Message(u.messageId, "", Handshake.PROTOCOL_VERSION, "", q, u.payloadHash, u.expiresAt, signature, publicKey)
  }

  lemma ReadingValidates(c: Crypto, parseDate: string -> Option<int>, q: Payload, u: Triple, signature: string, publicKey: string, now: int)
    requires SafeParse(c, q).Some? && ComputePayloadHash(c, SafeParse(c, q).value) == u.payloadHash
    requires c.verify(publicKey, signature, SignaturePayload(u))
    requires match parseDate(u.expiresAt) case None => true case Some(at) => now < at
    ensures ValidateEmergencyMessage(c, parseDate, Carrying(q, u, signature, publicKey), now).Valid?
  {
    assert MessageTriple(Carrying(q, u, signature, publicKey)) == u;
  }

  /** Where a signed text hides the hash of a payload that passes the schema, the same signature validates
      a message with that payload, under another id or another expiry. */
  lemma HiddenHashValidates(c: Crypto, parseDate: string -> Option<int>, p: Payload, publicKey: string) returns (m: Message, now: int)
    requires HidesHash(c, p) && Signed(c, publicKey, p)
    ensures m.originPublicKey == publicKey && ValidateEmergencyMessage(c, parseDate, m, now).Valid?
    ensures SignaturePayload(MessageTriple(m)) == SignaturePayload(SignedTriple(c, p))
    ensures m.messageId != TextOf(p, "incidentId") || m.expiresAt != TextOf(p, "expiresAt")
    ensures BarFree(TextOf(p, "expiresAt")) ==> !BarFree(m.expiresAt)
  {
    var q :| SafeParse(c, q).Some? && ComputePayloadHash(c, SafeParse(c, q).value) in InnerParts(SignedTriple(c, p));
    var signature :| c.verify(publicKey, signature, SignaturePayload(SignedTriple(c, p)));
    HashIsBarFree(c, p);
    var u := InnerPartIsReading(SignedTriple(c, p), ComputePayloadHash(c, SafeParse(c, q).value));
    m := Carrying(q, u, signature, publicKey);
    assert MessageTriple(m) == u;
    now := match parseDate(u.expiresAt) case None => 0 case Some(at) => at - 1;
    ReadingValidates(c, parseDate, q, u, signature, publicKey, now);
  }

  /** Integrity, exactly: every validating message agrees with the built payload whose signed text it carries,
      on its id, its expiry and every schema field, if and only if no built payload's text hides the hash of
      another payload that passes the schema. */
  lemma SignatureBindsExactly(c: Crypto, parseDate: string -> Option<int>, publicKey: string, built: set<Payload>)
    requires IdealHash(c) && FieldsPrint(c) && Honest(c, publicKey, built)
    requires forall p :: p in built ==> Signed(c, publicKey, p)
    ensures (forall p :: p in built ==> !HidesHash(c, p))
            <==> (forall m: Message, now: int, p: Payload ::
                    (p in built && m.originPublicKey == publicKey && ValidateEmergencyMessage(c, parseDate, m, now).Valid?
                     && SignaturePayload(MessageTriple(m)) == SignaturePayload(SignedTriple(c, p))) ==>
                      Agrees(c, m, p))
  {
    if forall p :: p in built ==> !HidesHash(c, p) {
      forall m: Message, now: int, p: Payload | p in built && ValidateEmergencyMessage(c, parseDate, m, now).Valid?
                         && SignaturePayload(MessageTriple(m)) == SignaturePayload(SignedTriple(c, p))
        ensures Agrees(c, m, p)
      {
        CarriedIsAgreed(c, parseDate, m, now, p);
      }
    } else {
      var p :| p in built && HidesHash(c, p);
      var m, now := HiddenHashValidates(c, parseDate, p, publicKey);
    }
  }

  /** A message that validates under an honest device's key agrees with one payload that device built, if no
      built payload's text hides a hash. */
  lemma ValidatedIsBuilt(c: Crypto, parseDate: string -> Option<int>, m: Message, now: int, built: set<Payload>)
    requires IdealHash(c) && FieldsPrint(c) && Honest(c, m.originPublicKey, built)
    requires forall p :: p in built ==> !HidesHash(c, p)
    requires ValidateEmergencyMessage(c, parseDate, m, now).Valid?
    ensures exists p :: p in built && Agrees(c, m, p)
  {
    var p :| p in built && SignaturePayload(MessageTriple(m)) == SignaturePayload(SignedTriple(c, p));
    CarriedIsAgreed(c, parseDate, m, now, p);
  }

  /** For a device whose expiry texts have no bar, as dates have none, that condition is exact too. */
  lemma ValidatedIsBuiltExactly(c: Crypto, parseDate: string -> Option<int>, publicKey: string, built: set<Payload>)
    requires IdealHash(c) && FieldsPrint(c) && Honest(c, publicKey, built)
    requires forall p :: p in built ==> Signed(c, publicKey, p) && BarFree(TextOf(p, "expiresAt"))
    ensures (forall p :: p in built ==> !HidesHash(c, p))
            <==> (forall m: Message, now: int ::
                    (m.originPublicKey == publicKey && ValidateEmergencyMessage(c, parseDate, m, now).Valid?) ==>
                      exists p :: p in built && Agrees(c, m, p))
  {
    if forall p :: p in built ==> !HidesHash(c, p) {
      forall m: Message, now: int | m.originPublicKey == publicKey && ValidateEmergencyMessage(c, parseDate, m, now).Valid?
        ensures exists p :: p in built && Agrees(c, m, p)
      {
        ValidatedIsBuilt(c, parseDate, m, now, built);
      }
    } else {
      var p :| p in built && HidesHash(c, p);
      var m, now := HiddenHashValidates(c, parseDate, p, publicKey);
      forall p' | p' in built ensures !Agrees(c, m, p') {}
    }
  }

  /** No text with bar-free ids and dates hides a hash. */
  lemma PlainTextsHideNothing(c: Crypto, p: Payload)
    requires BarFree(TextOf(p, "incidentId")) && BarFree(TextOf(p, "expiresAt"))
    ensures !HidesHash(c, p)
  {
    BarFreeIsOnePart(TextOf(p, "incidentId"));
    BarFreeIsOnePart(TextOf(p, "expiresAt"));
    assert InnerParts(SignedTriple(c, p)) == [];
  }

  /** A signature that moves: the schema lets an incident id be `x`, a bar and the hash of a payload `q` that
      passes the schema. What was signed for it also validates `q` under the id `x`, with an expiry that is
      no date and so never passes. */
  lemma SignatureMoves(c: Crypto, parseDate: string -> Option<int>, p: Payload, q: Payload, x: string, signature: string,
                       publicKey: string, now: int)
    requires SafeParse(c, q).Some?
    requires TextOf(p, "incidentId") == x + "|" + ComputePayloadHash(c, SafeParse(c, q).value)
    requires c.verify(publicKey, signature, SignaturePayload(SignedTriple(c, p)))
    requires parseDate(ComputePayloadHash(c, p) + "|" + TextOf(p, "expiresAt")).None?
    ensures var u := Triple(x, ComputePayloadHash(c, SafeParse(c, q).value), ComputePayloadHash(c, p) + "|" + TextOf(p, "expiresAt"));
            ValidateEmergencyMessage(c, parseDate, Carrying(q, u, signature, publicKey), now).Valid? && x != TextOf(p, "incidentId")
  {
    var h, g, exp := ComputePayloadHash(c, p), ComputePayloadHash(c, SafeParse(c, q).value), TextOf(p, "expiresAt");
    var u := Triple(x, g, h + "|" + exp);
    assert SignaturePayload(u) == SignaturePayload(SignedTriple(c, p)) by { SameText(x, g, h, exp); }
    ReadingValidates(c, parseDate, q, u, signature, publicKey, now);
  }

  lemma SameText(x: string, g: string, h: string, exp: string)
    ensures SignaturePayload(Triple(x, g, h + "|" + exp)) == SignaturePayload(Triple(x + "|" + g, h, exp))
  {}

  /** After any number of hops: in a store that any number of sessions worked on, racing or not, with any
      peers sending anything, every message under an honest key was there at the start or agrees with one
      that device built. */
  lemma StoredIsBuilt(c: Crypto, parseDate: string -> Option<int>, r: AnyPeer.Shared, acts: seq<AnyPeer.RaceAct>,
                      seed: seq<Message>, m: Message, built: set<Payload>)
    requires IdealHash(c) && FieldsPrint(c) && Honest(c, m.originPublicKey, built)
    requires forall p :: p in built ==> !HidesHash(c, p)
    requires AnyPeer.RaceInv(RelayEnv(c, parseDate), r, seed) && AnyPeer.CanRaceAll(RelayEnv(c, parseDate), r, acts)
    requires m in AnyPeer.RaceAll(RelayEnv(c, parseDate), r, acts).store
    ensures m in seed || exists p :: p in built && Agrees(c, m, p)
  {
    var env := RelayEnv(c, parseDate);
    AnyPeer.OneEntryPerId(env, r, acts, seed);
    var r' := AnyPeer.RaceAll(env, r, acts);
    assert AnyPeer.Vetted(env, r', seed, m);
    if m !in seed {
      var i :| 0 <= i < |r'.sides| && Accepts(env, m, r'.sides[i].self.now);
      ValidationIsAcceptance(c, parseDate, m, r'.sides[i].self.now);
      ValidatedIsBuilt(c, parseDate, m, r'.sides[i].self.now, built);
    }
  }

  /** The schema takes the payload as it is, up to key order: every field is there and well formed, and no
      other key is. */
  ghost predicate SchemaExact(c: Crypto, p: Payload) {
    && (forall k :: 0 <= k < |FIELDS| ==> HasKey(p, FIELDS[k]) && c.fieldOk(FIELDS[k], Get(p, FIELDS[k])))
    && (forall e :: e in p ==> e.key in FIELDS)
  }

  lemma ExactParses(c: Crypto, p: Payload)
    requires DistinctKeys(p) && SchemaExact(c, p)
    ensures SafeParse(c, p).Some? && SameEntries(SafeParse(c, p).value, p)
  {
    var data := SafeParse(c, p).value;
    forall e
      ensures e in data <==> e in p
    {
      if e in p {
        GetUnique(p, e);
        var k :| 0 <= k < |FIELDS| && FIELDS[k] == e.key;
        assert data[k] == e;
      }
    }
  }

  /** A message validates where it was built, and anywhere after, exactly when its payload is what the
      schema asks for and it has not expired. */
  lemma BuiltValidates(c: Crypto, parseDate: string -> Option<int>, p: Payload, originDeviceId: string, timestamp: string,
                       privateKey: string, now: int)
    requires IdealHash(c) && FieldsPrint(c)
    requires DistinctKeys(p) && forall e :: e in p ==> Printable(e.value)
    requires forall text :: c.verify(c.publicKey(privateKey), c.sign(privateKey, text), text)
    ensures var m := BuildEmergencyMessage(c, p, originDeviceId, timestamp, privateKey);
            ValidateEmergencyMessage(c, parseDate, m, now).Valid?
            <==> SchemaExact(c, p) && match parseDate(TextOf(p, "expiresAt")) case None => true case Some(at) => now < at
    ensures var m := BuildEmergencyMessage(c, p, originDeviceId, timestamp, privateKey);
            && m.payload == p && m.messageId == TextOf(p, "incidentId") && m.expiresAt == TextOf(p, "expiresAt")
            && m.originDeviceId == originDeviceId && m.timestamp == timestamp && m.originPublicKey == c.publicKey(privateKey)
  {
    if SchemaExact(c, p) {
      ExactHash(c, p);
    } else if SafeParse(c, p).Some? && ComputePayloadHash(c, SafeParse(c, p).value) == ComputePayloadHash(c, p) {
      ParsedPrints(c, p);
      HashInjective(c, SafeParse(c, p).value, p);
      FieldsOnly(c, p);
    }
  }

  lemma ExactHash(c: Crypto, p: Payload)
    requires FieldsPrint(c) && DistinctKeys(p) && SchemaExact(c, p) && forall e :: e in p ==> Printable(e.value)
    ensures SafeParse(c, p).Some? && ComputePayloadHash(c, SafeParse(c, p).value) == ComputePayloadHash(c, p)
  {
    ExactParses(c, p);
    ParsedPrints(c, p);
    CanonicalForm(SafeParse(c, p).value, p);
  }

  lemma FieldsOnly(c: Crypto, p: Payload)
    requires SafeParse(c, p).Some? && SameEntries(SafeParse(c, p).value, p)
    ensures SchemaExact(c, p)
  {
    var data := SafeParse(c, p).value;
    forall e | e in p
      ensures e.key in FIELDS
    {
      assert e in data;
    }
  }
}
