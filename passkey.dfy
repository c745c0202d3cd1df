/**
 * Conversion between a WebAuthn credential and the stored passkey record
 * (src/utils/passkey.js). The record's fields are written `_id`,
 * `public_key`, `counter`, `transports` and `label`; `_id` is not a Dafny
 * name and `label` is a keyword, so two of them are renamed below.
 */
module Passkey {
  import opened Js
  import Base64

  /** A `WebAuthnCredential`; `transports` may be absent. */
  datatype Credential = Credential(id: string, publicKey: seq<Base64.Byte>, counter: int, transports: Option<seq<string>>)

  /**
   * The stored record: `docId` is `_id`, `publicKeyBytes` is `public_key`
   * (a copied buffer), then `counter`, `transports`, and `labelText` is `label`.
   */
  datatype PasskeyRecord = PasskeyRecord(docId: string, publicKeyBytes: seq<Base64.Byte>, counter: int,
                                         transports: Option<seq<string>>, labelText: string)

  /** `toPasskeyBSON(label, credential)`. */
  function ToPasskeyBson(labelText: string, credential: Credential): (r: PasskeyRecord)
    ensures FromPasskeyBson(r) == credential
    ensures r.labelText == labelText
  {
    PasskeyRecord(credential.id, credential.publicKey, credential.counter, credential.transports, labelText)
  }

  /** `fromPasskeyBSON(record)`: the label is dropped. */
  function FromPasskeyBson(record: PasskeyRecord): (r: Credential)
    ensures r.id == record.docId && r.publicKey == record.publicKeyBytes
    ensures r.counter == record.counter && r.transports == record.transports
  {
    Credential(record.docId, record.publicKeyBytes, record.counter, record.transports)
  }

  /** Storing a credential read back from a record, under that record's label, gives the record again. */
  lemma RecordRoundTrip(record: PasskeyRecord)
    ensures ToPasskeyBson(record.labelText, FromPasskeyBson(record)) == record
  {
  }

  /** Reading a record back ignores its label: records differing only in label give the same credential. */
  lemma LabelDropped(record: PasskeyRecord, labelText: string)
    ensures FromPasskeyBson(record.(labelText := labelText)) == FromPasskeyBson(record)
  {
  }
}
