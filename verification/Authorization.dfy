/** Who can make an account act: exactly which operations pass validation, said of the
    account and the operation alone. */
module Authorization {
  import opened Types
  import opened Ledger
  import opened Calls
  import opened Operations
  import opened OperationLaws
  import Snapshot
  import Blocks

  function Ascii(s: string): Bytes { seq(|s|, i requires 0 <= i < |s| => s[i] as nat) }

  /** At most 16 actions, and every deployment carries valid code of at most 4 MB. */
  predicate Shaped(env: Env, op: UserOperation) {
    && |op.actions| <= 16
    && forall a :: a in op.actions && a.Deploy? ==> |a.code| <= 4 * 1024 * 1024 && env.validCode(a.code)
  }

  /** The one kind of operation nobody signs: a single fulfil or slash call to a system
      contract, marked by the proposer. */
  predicate Injected(op: UserOperation) {
    && op.signature == [0xFF] && |op.actions| == 1
    && match op.actions[0]
       case Call(target, callMethod, _) =>
         IsSystem(target) && (callMethod == Ascii("fulfill") || callMethod == Ascii("slash"))
       case _ => false
  }

  /** Some method of the account authorises the operation. */
  predicate Authorized(env: Env, a: Account, op: UserOperation, height: nat) {
    exists m :: m in a.auth && env.authorizes(m, op, height)
  }

  // ---------- What a session may do ----------

  /** An action that a session key with these lists may take. */
  predicate InScope(s: AuthMethod, a: Action)
    requires s.Session?
  {
    match a
    case SetAuth(_) => false
    case Deploy(_, _) => false
    case Transfer(to, _) => s.allowedTargets == [] || to in s.allowedTargets
    case Call(target, callMethod, _) =>
      && (s.allowedTargets == [] || target in s.allowedTargets)
      && (s.allowedMethods == [] || callMethod in s.allowedMethods)
      && target != GUARDIAN_ADDRESS
      && (target == GOVERNANCE_ADDRESS ==>
            !(Ascii("propose") <= callMethod) && callMethod != Ascii("finalize") && callMethod != Ascii("execute"))
  }

  predicate WithinSession(l: Ledger, op: UserOperation, s: AuthMethod)
    requires s.Session?
  {
    var spend, before := Spend(op.actions), SpentBy(l, op.sender, s.sessionKey);
    && l.tipHeight <= s.expiresAt
    && (s.spendingLimit == 0 || spend <= s.spendingLimit)
    && (s.budgetTotal == 0 || before + spend <= s.budgetTotal || s.budgetTotal >= MAX_U128)
    && forall a :: a in op.actions ==> InScope(s, a)
  }

  /** The session whose rules apply: the first whose key verifies the signature. */
  predicate FirstSession(env: Env, auth: seq<AuthMethod>, op: UserOperation, i: nat) {
    && i < |auth| && auth[i].Session? && env.sessionSigned(auth[i].sessionKey, op)
    && forall j :: 0 <= j < i && auth[j].Session? ==> !env.sessionSigned(auth[j].sessionKey, op)
  }

  ghost predicate SessionsAgree(env: Env, l: Ledger, a: Account, op: UserOperation) {
    forall i: nat :: FirstSession(env, a.auth, op, i) ==> WithinSession(l, op, a.auth[i])
  }

  lemma Names()
    ensures Ascii("fulfill") == FULFILL && Ascii("slash") == SLASH && Ascii("propose") == PROPOSE
    ensures Ascii("finalize") == FINALIZE && Ascii("execute") == EXECUTE
  {
  }

  lemma SessionMatches(env: Env, auth: seq<AuthMethod>, op: UserOperation)
    ensures SessionFor(env, auth, op).None? ==> forall i: nat :: !FirstSession(env, auth, op, i)
    ensures SessionFor(env, auth, op).Some? ==>
              exists i: nat :: FirstSession(env, auth, op, i) && auth[i] == SessionFor(env, auth, op).value
    ensures forall i: nat, j: nat :: FirstSession(env, auth, op, i) && FirstSession(env, auth, op, j) ==> i == j
  {
    var s := SessionFor(env, auth, op);
    forall i: nat ensures s.None? ==> !FirstSession(env, auth, op, i) {
      if s.None? && i < |auth| { assert !SignedBySession(env, auth[i], op); }
    }
    if s.Some? {
      var i :| 0 <= i < |auth| && auth[i] == s.value && SignedBySession(env, auth[i], op)
               && forall j :: 0 <= j < i ==> !SignedBySession(env, auth[j], op);
      forall j | 0 <= j < i && auth[j].Session? ensures !env.sessionSigned(auth[j].sessionKey, op) {
        assert !SignedBySession(env, auth[j], op);
      }
      assert FirstSession(env, auth, op, i);
    }
  }

  lemma ScopeIs(s: AuthMethod, a: Action)
    requires s.Session?
    ensures InScope(s, a) <==> TargetAllowed(s, a) && !Privileged(a) && MethodAllowed(s, a)
  {
    Names();
  }

  lemma AllowsIs(l: Ledger, op: UserOperation, s: AuthMethod)
    requires s.Session?
    ensures SessionAllows(l, op, s) <==> WithinSession(l, op, s)
  {
    forall i | 0 <= i < |op.actions|
      ensures InScope(s, op.actions[i]) <==>
              TargetAllowed(s, op.actions[i]) && !Privileged(op.actions[i]) && MethodAllowed(s, op.actions[i])
    {
      ScopeIs(s, op.actions[i]);
    }
  }

  lemma SessionsAgreeIs(env: Env, l: Ledger, a: Account, op: UserOperation)
    ensures SessionsAgree(env, l, a, op) <==>
            var s := SessionFor(env, a.auth, op); s.Some? ==> SessionAllows(l, op, s.value)
  {
    SessionMatches(env, a.auth, op);
    var s := SessionFor(env, a.auth, op);
    if s.Some? {
      AllowsIs(l, op, s.value);
      var i: nat :| FirstSession(env, a.auth, op, i) && a.auth[i] == s.value;
      assert forall j: nat :: FirstSession(env, a.auth, op, j) ==> j == i;
    }
  }

  // ---------- Validity ----------

  /** An operation passes validation exactly if it is shaped, its sender exists, and it is
      injected by the proposer or authorised by one of the sender's methods, with the
      sender's next nonce and within the session that signed it, if one did. */
  lemma ValidIff(env: Env, l: Ledger, op: UserOperation, height: nat)
    ensures ExecuteOp(env, l, op, height).valid <==>
            && Shaped(env, op) && op.sender in l.accounts
            && var a := l.accounts[op.sender];
               Injected(op) || (Authorized(env, a, op, height) && op.nonce == a.nonce < MAX_U64 && SessionsAgree(env, l, a, op))
  {
    Names();
    ShapedIs(env, op);
    if op.sender in l.accounts {
      SignedIs(env, l.accounts[op.sender], op, height);
      SessionsAgreeIs(env, l, l.accounts[op.sender], op);
    }
  }

  lemma ShapedIs(env: Env, op: UserOperation)
    ensures WellFormed(env, op) <==> Shaped(env, op)
  {
  }

  lemma SignedIs(env: Env, a: Account, op: UserOperation, height: nat)
    ensures Signed(env, a.auth, op, height) <==> Authorized(env, a, op, height)
  {
  }

  /** Nothing moves without authority: an operation that changes the ledger in any way is
      injected by the proposer, or a method the sender had before the call authorised it. */
  lemma NothingUnsigned(env: Env, l: Ledger, op: UserOperation, height: nat)
    requires ExecuteOp(env, l, op, height).ledger != l
    ensures op.sender in l.accounts
    ensures Injected(op) || Authorized(env, l.accounts[op.sender], op, height)
  {
    ValidIff(env, l, op, height);
  }

  // ---------- What counts as spending ----------

  /** The amount a system call encodes after its 32-byte (for the bridge 8-byte) head. */
  lemma SystemSpend(target: Id, callMethod: Bytes, head: Bytes, amount: nat, tail: Bytes)
    requires IsSystem(target) && amount <= MAX_U128 && |head| == (if target == BRIDGE_ADDRESS then 8 else 32)
    requires |head| + 16 + |tail| >= 48
    ensures SpendOf(Call(target, callMethod, head + Snapshot.Encode(amount, 16) + tail)) == amount
  {
    var args := head + Snapshot.Encode(amount, 16) + tail;
    assert args[|head|..|head| + 16] == Snapshot.Encode(amount, 16);
    Width16();
    Snapshot.DecodeEncode(amount, 16);
    SameDecoding(Snapshot.Encode(amount, 16));
  }

  lemma {:induction false} PowAdd(a: nat, b: nat)
    ensures Snapshot.Pow256(a + b) == Snapshot.Pow256(a) * Snapshot.Pow256(b)
  {
    if a > 0 { PowAdd(a - 1, b); }
  }

  lemma Width16()
    ensures Snapshot.Pow256(16) == MAX_U128 + 1
  {
    Snapshot.Widths();
    PowAdd(8, 8);
  }

  lemma {:induction false} SameDecoding(b: Snapshot.Blob)
    ensures LittleEndian(b) == Snapshot.Decode(b)
  {
    if b != [] { SameDecoding(b[1..]); }
  }

  // ---------- Ahead of time ----------

  /** In a block whose signatures are checked ahead of time, an operation is skipped exactly
      if nobody injected it and no method its sender had at the block's start authorises it;
      otherwise it runs as it would in turn. */
  lemma SkippedIff(env: Env, start: Ledger, l: Ledger, op: UserOperation, height: nat)
    ensures Blocks.ParallelOp(env, start, l, op, height) ==
            if Injected(op) || (op.sender in start.accounts && Authorized(env, start.accounts[op.sender], op, height))
            then Blocks.OutcomeOf(ExecuteOp(env, l, op, height))
            else Blocks.Outcome(l, Blocks.Receipt(false, 0))
  {
    Names();
    if op.sender in start.accounts { SignedIs(env, start.accounts[op.sender], op, height); }
  }

  /** A session that does not ask for it, or has no lists, does not restrict sub-calls: the
      operation runs its actions as any other would. */
  lemma UnrestrictedRuns(env: Env, l: Ledger, op: UserOperation, height: nat)
    requires ExecuteOp(env, l, op, height).valid && op.sender in l.accounts
    requires forall i: nat :: FirstSession(env, l.accounts[op.sender].auth, op, i) ==>
               var s := l.accounts[op.sender].auth[i];
               !s.restrictSubcalls || (s.allowedTargets == [] && s.allowedMethods == [])
    ensures Validate(env, l, op, height).Some? && Validate(env, l, op, height).value.policy == None
  {
    SessionMatches(env, l.accounts[op.sender].auth, op);
  }
}
