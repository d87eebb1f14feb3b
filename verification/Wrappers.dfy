/** Result and option types shared by every module: a raised Python exception becomes Err. */
module Wrappers {

  datatype Option<+T> = None | Some(value: T) {
    function GetOr(default: T): T {
      if Some? then value else default
    }
  }

  datatype Result<+T> = Ok(value: T) | Err(error: Error)

  /** Why a program refused: the exceptions of the modelled code, by meaning. */
  datatype Error =
    | SerialOutOfRange | NotOneSerialLine | SerialOrderAmbiguous | SerialNotAdvanced | SerialRequired
    | RecordFileNotIncluded | Interrupted
    | FileExists | FileMissing | NotJson | SymlinkFound | MetadataMissing | NoFileChecksums | FileSetDiffers
    | PathsOverlap | OutsideRoot | InvalidLogName | LogMissing | ManifestExists | ManifestMissing
    | BaselineUnavailable | LogSequenceInvalid | LogGap
    | InvalidName | DuplicateZone | ApexCname | RuntimeOwner | DuplicateOwner | UnknownZone | InvalidRecord
    | UnexpectedTemplates | UndeclaredMacros | TriggerCount | TriggerTemplate | ItemDefinition | ItemTemplate
    | ItemModified | TriggerModified | OutsideEntities
    | OutsideReverseZones | InvalidNetwork
    | ServerUnreachable | ServerPolicy | MemberCount | MemberNames | NotAnOnlinePair | WriteProtection
    | OnlinePrimaryExists | UnfitCandidate | OptionCount | NoAccounts | AccountsDisagree | UnknownMember
    | NoneReachable | ApiFailed | ForeignMetadata | AmbiguousRejoin | NotTheSecondary | NotPromoted
    | PrimaryNotWritable | UnsupportedAction
    | ChecksumMismatch | InvalidIdentity | IdentityMismatch | SizeMismatch | UnsafePath

  /** The content of a SHA-256 digest.  The hash is treated symbolically: two
      digests are equal exactly when the hashed contents are equal. */
  datatype Digest<T> = Sha256(content: T)
}
