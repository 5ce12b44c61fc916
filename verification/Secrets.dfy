/** Secrets, sealed objects and recovery blobs, with cryptography taken symbolically: a ciphertext is
    the term that built it, so it opens under exactly the secret it was made with, and a derived
    secret determines the secret it was derived from. */
module Secrets {
  import opened Wrappers

  /** `LockoutAuthOf(r)` is the HKDF output labelled for the TPM lockout hierarchy. */
  datatype Secret = Bytes(data: seq<bv8>) | LockoutAuthOf(root: Secret)

  const EMPTY: Secret := Bytes([])
  const LOCKOUT_AUTH_LEN: nat := 32
  const WRAPPED_KEY_LEN: nat := 32
  const MAX_PIN_LEN: nat := 32
  const RECOVERY_BLOB_VERSION: nat := 1
  const METADATA_VERSION: nat := 2

  function Len(s: Secret): nat {
    match s
    case Bytes(data) => |data|
    case LockoutAuthOf(_) => LOCKOUT_AUTH_LEN
  }

  /** The TPM object: `key` gated by `auth`, with the Name of the storage primary it was made under. */
  datatype SealedObject = SealedObject(key: Secret, auth: Secret, primaryName: string)

  /** `key` encrypted under a key-encryption key derived from `under`. */
  datatype RecoveryBlob = RecoveryBlob(version: nat, key: Secret, under: Secret)

  /** What a TPM whose live storage primary is called `primaryName` releases for `sealed` and `pin`. */
  function UnsealValue(sealed: SealedObject, pin: Secret, primaryName: string): Option<Secret> {
    if Len(pin) == 0 || Len(pin) > MAX_PIN_LEN then None
    else if sealed.primaryName == "" || sealed.primaryName != primaryName then None
    else if sealed.auth != pin then None
    else Some(sealed.key)
  }

  /** `recovery::unwrap_key`: the version and the fixed ciphertext length are checked before the tag. */
  function UnwrapKey(blob: RecoveryBlob, recovery: Secret): Option<Secret> {
    if blob.version != RECOVERY_BLOB_VERSION then None
    else if Len(blob.key) != WRAPPED_KEY_LEN then None
    else if blob.under != recovery then None
    else Some(blob.key)
  }

  datatype Content =
    | Absent
    | MetadataFile(version: nat, sealed: SealedObject)
    | BlobFile(blob: RecoveryBlob)
    | KeyFile(secret: Secret)
    | MarkerFile
    | TemplateFile(embedding: seq<real>)
    | Foreign

  datatype FileName = Metadata | Recovery | LockoutOwned | MetadataFace | FaceKey | Template

  /** The files tess keeps (`Paths`); `template` is the user's entry in the face store. */
  datatype Files = Files(
    metadata: Content,
    recovery: Content,
    lockoutOwned: Content,
    metadataFace: Content,
    faceKey: Content,
    template: Content)
  {
    function With(name: FileName, content: Content): Files {
      match name
      case Metadata => this.(metadata := content)
      case Recovery => this.(recovery := content)
      case LockoutOwned => this.(lockoutOwned := content)
      case MetadataFace => this.(metadataFace := content)
      case FaceKey => this.(faceKey := content)
      case Template => this.(template := content)
    }
  }

  /** `persist::load` followed by `persist::from_metadata`. */
  function LoadSealed(file: Content): Option<SealedObject> {
    match file
    case MetadataFile(version, sealed) =>
      if version != METADATA_VERSION || sealed.primaryName == "" then None else Some(sealed)
    case _ => None
  }

  /** `recovery::load_blob`. */
  function LoadBlob(file: Content): Option<RecoveryBlob> {
    match file
    case BlobFile(blob) => if blob.version != RECOVERY_BLOB_VERSION then None else Some(blob)
    case _ => None
  }

  /** `recovery::read_secret_file`. */
  function LoadFaceKey(file: Content): Option<Secret> {
    match file
    case KeyFile(secret) => Some(secret)
    case _ => None
  }
}
