/** The records that the message handlers share: messages, their contents, and the errors of processing. */
module Records {
  import opened Wrappers

  type Hash = string

  type Address = string

  type Time = int

  type Value = string

  /** The shape of an item hash: a CIDv0, a CIDv1 or a 64-character storage hash. */
  predicate IsItemHash(s: string) {
    || ("Qm" <= s && 44 <= |s| <= 46)
    || ("bafy" <= s && |s| == 59)
    || |s| == 64
  }

  /** The length decides which kind of item hash a string can be, and the prefix whether it is one. */
  lemma {:induction false} ItemHashByLength(s: string)
    ensures IsItemHash(s) <==>
            if |s| == 44 || |s| == 45 || |s| == 46 then s[0] == 'Q' && s[1] == 'm'
            else if |s| == 59 then s[..4] == ['b', 'a', 'f', 'y']
            else |s| == 64
  {
    assert "Qm" <= s <==> |s| >= 2 && s[..2] == "Qm";
    assert "bafy" <= s <==> |s| >= 4 && s[..4] == "bafy";
  }

  /** Which row a query without a decisive order returns first: any member of the candidate set. */
  type RowChoice = set<Hash> -> Hash

  ghost predicate Chooses(first: RowChoice) {
    forall s :: s != {} ==> first(s) in s
  }

  // ----- errors

  datatype ProcessingError =
    | InvalidFormat | InvalidSignature | PermissionDenied | InsufficientBalance
    | NoAmendTarget | CannotAmendAmend
    | StoreUpdatesRevision
    | NoForgetTarget | ForgetNotAllowed | CannotForgetForget
    | VmUpdateRefused
    | ContentUnavailable | AmendTargetNotFound | StoreRefNotFound | VmVolumeNotFound | ForgetTargetNotFound
    | Internal
    | Database

  /** An invalid message is rejected at once; everything else is retried first. */
  predicate IsInvalid(e: ProcessingError) {
    match e
    case ContentUnavailable | AmendTargetNotFound | StoreRefNotFound | VmVolumeNotFound | ForgetTargetNotFound => false
    case Internal | Database => false
    case _ => true
  }

  // ----- contents

  /** A post may name its target by hash or by an on-chain reference that carries one. */
  datatype PostRef = NoRef | HashRef(hash: Hash) | ChainRef(hash: Hash)

  /** The balances a post from a balance address announces, if it is one; `Malformed` lacks a required field. */
  datatype BalancePost = NoBalances | Malformed | Balances(chain: string, dapp: Option<string>, height: int,
                                                           amounts: map<Address, real>)

  datatype VolumeRef = VolumeRef(ref: Hash, useLatest: bool)

  datatype Volume = Immutable(volume: VolumeRef) | Ephemeral | Persistent(parent: Option<VolumeRef>)

  datatype Machine = Program(code: VolumeRef, runtime: VolumeRef, data: Option<VolumeRef>) | Instance(rootfs: VolumeRef)

  datatype Content =
    | Post(postType: string, postRef: PostRef, body: Value, balances: BalancePost)
    | Aggregate(key: string, fields: map<string, Value>)
    | Store(file: Hash, typeMatches: bool, ref: Option<string>)
    | Vm(machine: Machine, volumes: seq<Volume>)
    | Forget(hashes: seq<Hash>, aggregates: seq<string>)

  /** A message as stored: who signed it, and the address and time its content states. */
  datatype Message = Message(sender: Address, signature: Option<string>, inline: bool, address: Address, time: Time,
                             content: Content)
}
