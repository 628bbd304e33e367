/** What the two ends of a pairing hash and sign (src/sync/sas.ts). */
module Transcript {
  import opened Wrappers
  import opened Vaults
  import opened Bytes
  import Text

  const PAIR_PROTOCOL := "abra-sync-pair-v1"
  const SIG_DOMAIN := "abra-sync-pair-sig-v1"

  datatype Side = Listener | Connector

  /** One side's public pairing message; the protocol string is checked on receipt to be the constant above. */
  datatype Hello = Hello(
    id: string,
    name: string,
    ed25519: string,
    x25519: string,
    nonce: string,
    role: Option<Role>)

  /** The same with its role settled. */
  datatype SettledHello = SettledHello(hello: Hello, role: Role)

  datatype Transcript = Transcript(tlsFingerprint: string, listener: SettledHello, connector: SettledHello)

  predicate IsHexDigit(c: char) {
    '0' <= c <= '9' || 'a' <= c <= 'f' || 'A' <= c <= 'F'
  }

  function NormalizeFingerprint(fp: string): string {
    if fp == "" then ""
    else if IsHexDigit(fp[0]) then [Text.LowerChar(fp[0])] + NormalizeFingerprint(fp[1..])
    else NormalizeFingerprint(fp[1..])
  }

  /** `AA:BB:..` and `aabb..` are the same fingerprint: what is left is lower-case hex, and stays as it is. */
  lemma {:induction false} NormalizeTwice(fp: string)
    ensures forall i :: 0 <= i < |NormalizeFingerprint(fp)| ==> IsHexDigit(NormalizeFingerprint(fp)[i])
    ensures NormalizeFingerprint(NormalizeFingerprint(fp)) == NormalizeFingerprint(fp)
  {
    if fp != "" {
      NormalizeTwice(fp[1..]);
      if IsHexDigit(fp[0]) {
        assert IsHexDigit(Text.LowerChar(fp[0])) && Text.LowerChar(Text.LowerChar(fp[0])) == Text.LowerChar(fp[0]);
        assert NormalizeFingerprint(fp)[1..] == NormalizeFingerprint(fp[1..]);
      }
    }
  }

  /** Hex digits are kept in order, as small letters; everything else, wherever it stands, is dropped. */
  lemma {:induction false} NormalizeKeeps(a: string, c: char, b: string)
    ensures IsHexDigit(c) ==> NormalizeFingerprint(a + [c] + b)
                              == NormalizeFingerprint(a)
                                 + [if 'A' <= c <= 'F' then "abcdef"[c as int - 'A' as int] else c]
                                 + NormalizeFingerprint(b)
    ensures !IsHexDigit(c) ==> NormalizeFingerprint(a + [c] + b) == NormalizeFingerprint(a) + NormalizeFingerprint(b)
  {
    if a == "" {
      assert ("" + [c] + b)[1..] == b;
    } else {
      assert (a + [c] + b)[1..] == a[1..] + [c] + b;
      NormalizeKeeps(a[1..], c, b);
    }
  }

  function SideName(side: Side): string {
    if side == Listener then "listener" else "connector"
  }

  function RoleName(role: Role): string {
    if role == Source then "source" else "receiver"
  }

  function HelloTexts(side: Side, h: SettledHello): seq<string> {
    [SideName(side), PAIR_PROTOCOL, h.hello.id, h.hello.name, h.hello.ed25519, h.hello.x25519, h.hello.nonce,
     RoleName(h.role)]
  }

  function TranscriptTexts(t: Transcript): seq<string> {
    [PAIR_PROTOCOL, NormalizeFingerprint(t.tlsFingerprint)]
    + HelloTexts(Listener, t.listener) + HelloTexts(Connector, t.connector)
  }

  function Encoded(texts: seq<string>): (r: seq<Buffer>)
    ensures |r| == |texts| && forall i :: 0 <= i < |r| ==> r[i] == Utf8(texts[i])
  {
    seq(|texts|, i requires 0 <= i < |texts| => Utf8(texts[i]))
  }

  /** Every text fits the 32-bit length in front of it. */
  predicate Fits(texts: seq<string>) {
    Short(Encoded(texts))
  }

  lemma EncodedInjective(a: seq<string>, b: seq<string>)
    requires Fits(a) && Fits(b) && Framed(Encoded(a)) == Framed(Encoded(b))
    ensures a == b
  {
    FramedInjective(Encoded(a), Encoded(b));
    assert |a| == |Encoded(a)| == |b|;
    forall i | 0 <= i < |a| ensures a[i] == b[i] {
      assert Encoded(a)[i] == Encoded(b)[i];
      Utf8Injective(a[i], b[i]);
    }
  }

  function TranscriptBytes(t: Transcript): Buffer
    requires Fits(TranscriptTexts(t))
  {
    Framed(Encoded(TranscriptTexts(t)))
  }

  /** Everything the transcript binds: roles as settled, not as asked for. */
  ghost predicate SameBinding(a: Transcript, b: Transcript) {
    && NormalizeFingerprint(a.tlsFingerprint) == NormalizeFingerprint(b.tlsFingerprint)
    && a.listener.hello.(role := None) == b.listener.hello.(role := None) && a.listener.role == b.listener.role
    && a.connector.hello.(role := None) == b.connector.hello.(role := None) && a.connector.role == b.connector.role
  }

  lemma HelloTextsBind(side: Side, a: SettledHello, b: SettledHello)
    ensures HelloTexts(side, a) == HelloTexts(side, b)
            <==> a.hello.(role := None) == b.hello.(role := None) && a.role == b.role
  {
    var x, y := HelloTexts(side, a), HelloTexts(side, b);
    RoleNames(a.role, b.role);
    if x == y {
      assert x[2] == y[2] && x[3] == y[3] && x[4] == y[4] && x[5] == y[5] && x[6] == y[6] && x[7] == y[7];
    }
  }

  lemma TextsSplit(t: Transcript)
    ensures TranscriptTexts(t)[1] == NormalizeFingerprint(t.tlsFingerprint)
    ensures TranscriptTexts(t)[2..10] == HelloTexts(Listener, t.listener)
    ensures TranscriptTexts(t)[10..] == HelloTexts(Connector, t.connector)
  {
  }

  /** What is bound, in this order. */
  lemma TextsAre(t: Transcript)
    ensures
      var l, c := t.listener, t.connector;
      TranscriptTexts(t)
      == ["abra-sync-pair-v1", NormalizeFingerprint(t.tlsFingerprint),
          "listener", "abra-sync-pair-v1", l.hello.id, l.hello.name, l.hello.ed25519, l.hello.x25519,
          l.hello.nonce, if l.role.Source? then "source" else "receiver",
          "connector", "abra-sync-pair-v1", c.hello.id, c.hello.name, c.hello.ed25519, c.hello.x25519,
          c.hello.nonce, if c.role.Source? then "source" else "receiver"]
  {
  }

  /** The hashed bytes read back as those texts, part by part. */
  lemma TranscriptReads(t: Transcript)
    requires Fits(TranscriptTexts(t))
    ensures
      var parts := Unframe(TranscriptBytes(t));
      && parts.Some? && |parts.value| == |TranscriptTexts(t)|
      && forall i :: 0 <= i < |parts.value| ==> parts.value[i] == Utf8(TranscriptTexts(t)[i])
  {
    UnframeFramed(Encoded(TranscriptTexts(t)));
  }

  /** The hashed bytes are equal exactly when everything they bind is. */
  lemma TranscriptBinds(a: Transcript, b: Transcript)
    requires Fits(TranscriptTexts(a)) && Fits(TranscriptTexts(b))
    ensures TranscriptBytes(a) == TranscriptBytes(b) <==> SameBinding(a, b)
  {
    if TranscriptBytes(a) == TranscriptBytes(b) {
      EncodedInjective(TranscriptTexts(a), TranscriptTexts(b));
    }
    TextsSplit(a);
    TextsSplit(b);
    HelloTextsBind(Listener, a.listener, b.listener);
    HelloTextsBind(Connector, a.connector, b.connector);
  }

  lemma RoleNames(a: Role, b: Role)
    ensures RoleName(a) == RoleName(b) ==> a == b
  {
    assert RoleName(Source)[0] == 's' && RoleName(Receiver)[0] == 'r';
  }

  // ---------- opaque hash and signatures ----------

  /** SHA-256 as an injective function of its input. */
  datatype Digest = Sha256(preimage: Buffer)

  /** An Ed25519 signature: made with the key pair of that public key, over that message. */
  datatype Signature = Signed(publicKey: string, message: SigMessage)

  /** The three length-prefixed parts that are signed; the digest has its fixed 32 bytes. */
  datatype SigMessage = SigMessage(domain: string, side: string, digest: Digest)

  function TranscriptHash(t: Transcript): Digest
    requires Fits(TranscriptTexts(t))
  {
    Sha256(TranscriptBytes(t))
  }

  function Sign(publicKey: string, side: Side, digest: Digest): Signature {
    Signed(publicKey, SigMessage(SIG_DOMAIN, SideName(side), digest))
  }

  predicate Verifies(publicKey: string, side: Side, digest: Digest, sig: Signature) {
    sig == Sign(publicKey, side, digest)
  }

  /** A signature verifies for one key, one side and one binding only: it cannot be replayed or reflected. */
  lemma SignatureBinds(key: string, side: Side, t: Transcript, key': string, side': Side, t': Transcript)
    requires Fits(TranscriptTexts(t)) && Fits(TranscriptTexts(t'))
    ensures Verifies(key, side, TranscriptHash(t), Sign(key', side', TranscriptHash(t')))
            <==> key == key' && side == side' && SameBinding(t, t')
  {
    TranscriptBinds(t, t');
    assert SideName(Listener)[0] == 'l' && SideName(Connector)[0] == 'c';
  }
}
