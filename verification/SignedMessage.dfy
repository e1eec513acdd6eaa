/** The bytes a wallet signs for the hub transport: a fixed prefix, the message's length in decimal, and the message. */
module SignedMessage {
  import opened Text

  function Prefix(): string { [22 as char] + "Nimiq Signed Message:\n" }

  datatype Transport = MiniApp | Hub | Unknown

  /** What is signed: the message itself, or the digest of the framed message; the hash is a parameter. */
  function SignedBytes(transport: Transport, message: string, sha256: string -> string): Option<string> {
    match transport
    case MiniApp => Some(message)
    case Hub => Some(sha256(HubPayload(message)))
    case Unknown => None
  }

  function HubPayload(message: string): string { Prefix() + Dec(|message|) + message }

  lemma {:induction false} LongerNumeral(m: nat, n: nat)
    requires m <= n
    ensures |Dec(m)| <= |Dec(n)|
  {
    if m >= 10 { LongerNumeral(m / 10, n / 10); }
  }

  /** No separator is needed after the length: the payload determines the message, for messages of every length and
      content, because n plus the number of digits of n grows with n. */
  lemma HubPayloadInjective(a: string, b: string)
    requires HubPayload(a) == HubPayload(b)
    ensures a == b
  {
    if |a| <= |b| { LongerNumeral(|a|, |b|); } else { LongerNumeral(|b|, |a|); }
    assert |a| == |b|;
    var k := |Prefix()| + |Dec(|a|)|;
    assert HubPayload(a)[k..] == a && HubPayload(b)[k..] == b;
  }

  /** A mini app signs the message as it is, and so no two messages alike; another transport than the two signs nothing. */
  lemma OtherTransports(transport: Transport, a: string, b: string, sha256: string -> string)
    ensures SignedBytes(transport, a, sha256).None? <==> transport != MiniApp && transport != Hub
    ensures transport == MiniApp ==> (SignedBytes(transport, a, sha256) == Some(b) <==> a == b)
  {
  }

  /** The frame of a short message: control character 22, the 22 further characters of the prefix, the length, the message. */
  lemma ShortPayload(message: string)
    requires |message| == 5
    ensures HubPayload(message) == [22 as char] + "Nimiq Signed Message:\n5" + message
  {
    assert Dec(5) == "5";
  }

  /** So two hub messages are signed alike only if they are one message or exhibit a collision of the hash. */
  lemma HubMessageIsBound(a: string, b: string, sha256: string -> string)
    requires SignedBytes(Hub, a, sha256) == SignedBytes(Hub, b, sha256)
    ensures a == b || (HubPayload(a) != HubPayload(b) && sha256(HubPayload(a)) == sha256(HubPayload(b)))
  {
    if HubPayload(a) == HubPayload(b) { HubPayloadInjective(a, b); }
  }
}
