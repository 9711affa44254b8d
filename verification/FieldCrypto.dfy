/** Sealing of sensitive leaf values before they reach the store file. */
module FieldCrypto {
  import opened Options

  const ENC_PREFIX := "enc:v1:"

  /** The Fernet primitive under one fixed key. Encryption draws fresh randomness,
      here the second argument; decryption fails on an invalid token. */
  datatype Fernet = Fernet(encrypt: (string, nat) -> string, decrypt: string -> Option<string>)

  /** The one fact used about the primitive: decryption undoes encryption. */
  ghost predicate Correct(f: Fernet) {
    forall v, n :: f.decrypt(f.encrypt(v, n)) == Some(v)
  }

  datatype Cipher = NullCipher | FernetCipher(fernet: Fernet)

  ghost predicate CorrectCipher(c: Cipher) {
    c.FernetCipher? ==> Correct(c.fernet)
  }

  predicate IsSealed(v: string) {
    ENC_PREFIX <= v
  }

  function Seal(c: Cipher, v: string, nonce: nat): string {
    match c
    case NullCipher => v
    case FernetCipher(f) => if IsSealed(v) then v else ENC_PREFIX + f.encrypt(v, nonce)
  }

  /** `None` stands for a raised FieldDecryptError. */
  function Open(c: Cipher, v: string): Option<string> {
    match c
    case NullCipher => if IsSealed(v) then None else Some(v)
    case FernetCipher(f) => if IsSealed(v) then f.decrypt(v[|ENC_PREFIX|..]) else Some(v)
  }

  /** A value that does not look sealed survives sealing and opening, whatever the
      cipher and the randomness drawn. */
  lemma OpenUndoesSeal(c: Cipher, v: string, nonce: nat)
    requires CorrectCipher(c)
    requires !IsSealed(v)
    ensures Open(c, Seal(c, v, nonce)) == Some(v)
  {
    if c.FernetCipher? {
      var token := c.fernet.encrypt(v, nonce);
      assert (ENC_PREFIX + token)[|ENC_PREFIX|..] == token;
    }
  }

  /** With the null cipher the prefix is exactly what fails to come back. */
  lemma NullCipherRoundTripsExactlyUnsealed(v: string, nonce: nat)
    ensures Open(NullCipher, Seal(NullCipher, v, nonce)) == Some(v) <==> !IsSealed(v)
  {
  }

  /** Sealing twice is sealing once, even though each encryption draws new randomness. */
  lemma SealIsIdempotent(c: Cipher, v: string, m: nat, n: nat)
    ensures Seal(c, Seal(c, v, m), n) == Seal(c, v, m)
  {
    if c.FernetCipher? && !IsSealed(v) {
      var s := ENC_PREFIX + c.fernet.encrypt(v, m);
      assert s[..|ENC_PREFIX|] == ENC_PREFIX;
    }
  }

  /** With a key, a value that does not look sealed is stored as the prefix and the encryption of
      that very value; one that does is stored as it is. Without a key nothing is changed. */
  lemma SealEncryptsExactly(f: Fernet, v: string, nonce: nat)
    ensures var stored := Seal(FernetCipher(f), v, nonce);
            if IsSealed(v) then stored == v
            else |stored| >= 7 && stored[..7] == "enc:v1:" && stored[7..] == f.encrypt(v, nonce)
    ensures Seal(NullCipher, v, nonce) == v
  {
    if !IsSealed(v) {
      var stored := ENC_PREFIX + f.encrypt(v, nonce);
      assert stored[..7] == ENC_PREFIX && stored[7..] == f.encrypt(v, nonce);
    }
  }

  /** A stored value without the prefix, as written before a key was configured, opens to itself
      under either cipher; one with the prefix opens to what follows decrypted, or not at all. */
  lemma OpenIsExact(f: Fernet, v: string, token: string)
    ensures Open(NullCipher, "enc:v1:" + token) == None
    ensures Open(FernetCipher(f), "enc:v1:" + token) == f.decrypt(token)
    ensures !IsSealed(v) ==> Open(NullCipher, v) == Some(v) && Open(FernetCipher(f), v) == Some(v)
  {
    var stored := "enc:v1:" + token;
    assert stored[..7] == ENC_PREFIX && stored[7..] == token;
  }

  /** Whether a value survives being stored: if it looks sealed, only if it happens to decrypt. */
  predicate Reopens(c: Cipher, v: string) {
    !IsSealed(v) || (c.FernetCipher? && c.fernet.decrypt(v[|ENC_PREFIX|..]).Some?)
  }

  lemma SealedReopensExactly(c: Cipher, v: string, nonce: nat)
    requires CorrectCipher(c)
    ensures Open(c, Seal(c, v, nonce)).Some? <==> Reopens(c, v)
  {
    if !IsSealed(v) { OpenUndoesSeal(c, v, nonce); }
  }
}
