/** Ideal cryptography: keys, boxes and authenticators are terms, so nothing collides and
    nothing opens under the wrong key.  The byte strings they bind are concrete. */
module SecureCrypto {
  import opened Model

  const MAC_SIZE: nat := 32
  const SALT_SIZE: nat := 16

  datatype KDFParams = KDFParams(memoryKiB: nat, iterations: nat, parallelism: nat)

  function ValidateKDFParams(p: KDFParams): bool {
    p.memoryKiB >= 19 * 1024 && p.iterations >= 2 && p.parallelism > 0
  }

  datatype Key =
    | RandomKey(draw: nat)
    | PasswordKey(password: string, salt: string, params: KDFParams)
    | ExpandedKey(parent: Key, info: string)

  function DeriveKEK(password: string, salt: string, params: KDFParams): Option<Key> {
    if password == "" || |password| > 4096 || |salt| < SALT_SIZE || !ValidateKDFParams(params) then None
    else Some(PasswordKey(password, salt, params))
  }

  function ExpandKey(key: Key, purpose: string): Key {
    ExpandedKey(key, "vcsm:v2:" + purpose)
  }

  // ----- Boxes -----

  datatype Box<T> = Box(key: Key, plaintext: T, associatedData: string)

  function Seal<T>(key: Key, plaintext: T, associatedData: string): Box<T> {
    Box(key, plaintext, associatedData)
  }

  /** Opens exactly under the key and the associated data it was sealed with. */
  function Open<T>(key: Key, box: Box<T>, associatedData: string): (plaintext: Option<T>)
    ensures plaintext.Some? <==> key == box.key && associatedData == box.associatedData
    ensures plaintext.Some? ==> box == Seal(key, plaintext.value, associatedData)
  {
    if key == box.key && associatedData == box.associatedData then Some(box.plaintext) else None
  }

  // ----- Authenticated byte strings -----

  /** A byte of text, a JSON text, or one byte of an authenticator. */
  datatype Octet =
    | Raw(byte: char)
    | Json(document: Document)
    | MacOctet(key: Key, message: seq<Octet>, index: nat)

  function Text(s: string): (octets: seq<Octet>)
    ensures |octets| == |s| && forall i :: 0 <= i < |s| ==> octets[i] == Raw(s[i])
  {
    seq(|s|, i requires 0 <= i < |s| => Raw(s[i]))
  }

  function Mac(key: Key, message: seq<Octet>): (octets: seq<Octet>)
    ensures |octets| == MAC_SIZE && forall i :: 0 <= i < MAC_SIZE ==> octets[i] == MacOctet(key, message, i)
  {
    seq(MAC_SIZE, i requires 0 <= i < MAC_SIZE => MacOctet(key, message, i))
  }

  lemma MacInjective(key: Key, message: seq<Octet>, key': Key, message': seq<Octet>)
    requires Mac(key, message) == Mac(key', message')
    ensures key == key' && message == message'
  {
    assert Mac(key, message)[0] == Mac(key', message')[0];
  }

  lemma TextInjective(s: string, t: string)
    requires Text(s) == Text(t)
    ensures s == t
  {
  }

  // ----- Lookup tokens -----

  /** The bytes fed to the authenticator: each value behind a zero byte. */
  function Frame(values: seq<string>): string {
    if values == [] then "" else Frame(values[..|values| - 1]) + ("\0" + values[|values| - 1])
  }

  function LookupToken(key: Key, values: seq<string>): seq<Octet> {
    Mac(key, Text(Frame(values)))
  }

  /** Feeding the values one write at a time. */
  method ComputeLookupToken(key: Key, values: seq<string>) returns (token: seq<Octet>)
    ensures token == LookupToken(key, values)
  {
    var fed: seq<Octet> := [];
    for i := 0 to |values|
      invariant fed == Text(Frame(values[..i]))
    {
      assert values[..i + 1][..i] == values[..i];
      fed := fed + [Raw('\0')];
      fed := fed + Text(values[i]);
      assert fed == Text(Frame(values[..i]) + ("\0" + values[i]));
    }
    assert values[..|values|] == values;
    token := Mac(key, fed);
  }
}
