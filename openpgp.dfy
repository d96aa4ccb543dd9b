/**
  The OpenPGP capability the server calls, as an opaque value: each operation
  is a total function supplied by the caller, and nothing is assumed about it.
*/
module OpenPgp {
  import opened Wrappers

  /** A cleartext-signed message: the signed text and its armored signature block. */
  datatype Cleartext = Cleartext(text: string, signature: string)

  datatype Pgp = Pgp(
    /** `key.readArmored(publicKey).keys[0].primaryKey.fingerprint`; None when the key is unreadable. */
    fingerprintOf: string -> Option<string>,
    /** `cleartext.readArmored(signature)`; None when it throws. */
    readCleartext: string -> Option<Cleartext>,
    /** `verify({message, publicKeys})` reports `signatures[0].valid` for the armored public key. */
    signatureValid: (Cleartext, string) -> bool
  )
}
