/** Values shared by the execution and the consensus side: identifiers, account
    authorisation methods, user operations and saturating arithmetic. */
module Types {

  datatype Option<+T> = None | Some(value: T)

  type Bytes = seq<nat>

  /** 32-byte identifiers and digests, read as numbers: byte-wise lexicographic
      order on the wire is numeric order here. */
  type Id = nat
  type Hash = nat

  /** The all-zero code hash of an account without code. */
  const NO_CODE: Hash := 0

  /** Blocks per epoch. */
  const EPOCH_LENGTH: nat := 100

  const MAX_U64: nat := 0xFFFF_FFFF_FFFF_FFFF
  const MAX_U128: nat := 0xFFFF_FFFF_FFFF_FFFF_FFFF_FFFF_FFFF_FFFF

  function Min(a: nat, b: nat): nat { if a < b then a else b }

  /** `u128::saturating_add` */
  function SatAdd(a: nat, b: nat): nat { Min(a + b, MAX_U128) }

  /** `u128::saturating_mul` */
  function SatMul(a: nat, b: nat): nat { Min(a * b, MAX_U128) }

  /** `u128::saturating_sub` */
  function SatSub(a: nat, b: nat): nat { if a < b then 0 else a - b }

  /** How an account may authorise an operation. Signature checking itself is an
      uninterpreted predicate of the executor; a session key also carries its
      restrictions. */
  datatype AuthMethod =
    | Ed25519(publicKey: Id)
    | Threshold(signers: seq<Id>, threshold: nat)
    | Passkey(credential: Bytes)
    | Session(sessionKey: Id, expiresAt: nat, spendingLimit: nat, budgetTotal: nat,
              allowedTargets: seq<Id>, allowedMethods: seq<Bytes>, restrictSubcalls: bool)
    | Guardian(guardianId: Id)
    | MlDsa(pqKey: Bytes)
    | Hybrid(edKey: Id, hybridKey: Bytes)

  datatype Action =
    | Transfer(to: Id, amount: nat)
    | Call(target: Id, callMethod: Bytes, args: Bytes)
    | Deploy(code: Bytes, salt: Id)
    | SetAuth(authMethods: seq<AuthMethod>)

  datatype UserOperation = UserOperation(
    sender: Id, nonce: nat, actions: seq<Action>, maxFee: nat, signature: Bytes)

  /** The signature that marks an operation injected by the block proposer. */
  const SYSTEM_SIGNATURE: Bytes := [0xFF]
}
