/** airusb/session/LeaseAuthority.cpp: who owns the shared device, across sessions. */
module Leases {
  import Status

  type Peer = nat
  type Uid = nat
  type RecoveryToken = nat

  /** T_lease_exporter, in nanoseconds. */
  const LEASE_NS: nat := 20_000 * 1_000_000

  datatype LeaseState = Free | Leased | Quarantined

  /** `owner` is meaningful only while `hasOwner`. */
  datatype Lease = Lease(
    state: LeaseState, uid: Uid, owner: Peer, hasOwner: bool,
    attachId: nat, leaseEpoch: nat, incarnation: nat, lastHeardNs: nat, sinceNs: nat)

  /** The lease, the token that could recover it, and the next attach id. */
  datatype Books = Books(lease: Lease, token: RecoveryToken, nextAttachId: nat)

  const NO_LEASE := Lease(Free, 0, 0, false, 0, 0, 0, 0, 0)
  const NEW_BOOKS := Books(NO_LEASE, 0, 1)

  predicate IsOwner(b: Books, peer: Peer) { b.lease.hasOwner && b.lease.owner == peer }

  function MayClaim(b: Books, peer: Peer, uid: Uid): int {
    match b.lease.state
    case Free => Status.OK
    case Leased => Status.BUSY
    case Quarantined => Status.EXCLUSIVITY_DENIED
  }

  function Grant(b: Books, peer: Peer, uid: Uid, now: nat, minted: RecoveryToken): Books {
    Books(Lease(Leased, uid, peer, true, b.nextAttachId, b.lease.leaseEpoch + 1, b.lease.incarnation + 1, now, now),
      minted, b.nextAttachId + 1)
  }

  function Heard(b: Books, peer: Peer, now: nat): Books {
    if !IsOwner(b, peer) then b
    else if b.lease.state == Quarantined then b.(lease := b.lease.(lastHeardNs := now, state := Leased, sinceNs := now))
    else b.(lease := b.lease.(lastHeardNs := now))
  }

  function Quarantine(b: Books, now: nat): Books {
    if b.lease.state != Leased then b else b.(lease := b.lease.(state := Quarantined, sinceNs := now))
  }

  function Reclaimed(b: Books, now: nat): Books { b.(lease := NO_LEASE.(sinceNs := now), token := 0) }

  function Release(b: Books, peer: Peer, now: nat): Books {
    if !IsOwner(b, peer) then b else Reclaimed(b, now)
  }

  function RecoverVerdict(b: Books, peer: Peer, token: RecoveryToken): int {
    if b.lease.state == Free then Status.NOT_FOUND
    else if !IsOwner(b, peer) || token != b.token then Status.NOT_PERMITTED
    else Status.OK
  }

  function Recovered(b: Books, now: nat, minted: RecoveryToken): Books {
    Books(b.lease.(state := Leased, attachId := b.nextAttachId, leaseEpoch := b.lease.leaseEpoch + 1,
                   incarnation := b.lease.incarnation + 1, lastHeardNs := now, sinceNs := now),
      minted, b.nextAttachId + 1)
  }

  predicate SilenceExpired(b: Books, now: nat) {
    b.lease.state == Leased && now >= b.lease.lastHeardNs && now - b.lease.lastHeardNs >= LEASE_NS
  }

  class LeaseAuthority {
    var s: Lease
    var token: RecoveryToken
    var nextAttachId: nat

    ghost function Snapshot(): Books
      reads this
    {
      Books(s, token, nextAttachId)
    }

    constructor ()
      ensures Snapshot() == NEW_BOOKS
    {
      s, token, nextAttachId := NO_LEASE, 0, 1;
    }

    method GrantTo(peer: Peer, uid: Uid, now: nat, minted: RecoveryToken) returns (attachId: nat)
      modifies this
      ensures Snapshot() == Grant(old(Snapshot()), peer, uid, now, minted) && attachId == old(nextAttachId)
    {
      s := s.(state := Leased, owner := peer, hasOwner := true, uid := uid, attachId := nextAttachId);
      nextAttachId := nextAttachId + 1;
      s := s.(leaseEpoch := s.leaseEpoch + 1, incarnation := s.incarnation + 1);
      s := s.(lastHeardNs := now, sinceNs := now);
      token := minted;
      attachId := s.attachId;
    }

    method HeardFrom(peer: Peer, now: nat)
      modifies this
      ensures Snapshot() == Heard(old(Snapshot()), peer, now)
    {
      if !(s.hasOwner && s.owner == peer) { return; }
      s := s.(lastHeardNs := now);
      if s.state == Quarantined { s := s.(state := Leased, sinceNs := s.lastHeardNs); }
    }

    method PutInQuarantine(now: nat)
      modifies this
      ensures Snapshot() == Quarantine(old(Snapshot()), now)
    {
      if s.state != Leased { return; }
      s := s.(state := Quarantined, sinceNs := now);
    }

    method ReleaseBy(peer: Peer, now: nat)
      modifies this
      ensures Snapshot() == Release(old(Snapshot()), peer, now)
    {
      if !(s.hasOwner && s.owner == peer) { return; }
      ForceReclaim(now);
    }

    method ForceReclaim(now: nat)
      modifies this
      ensures Snapshot() == Reclaimed(old(Snapshot()), now)
    {
      s := NO_LEASE;
      s := s.(sinceNs := now);
      token := 0;
    }

    method TryRecover(peer: Peer, presented: RecoveryToken, now: nat, minted: RecoveryToken) returns (st: int)
      modifies this
      ensures st == RecoverVerdict(old(Snapshot()), peer, presented)
      ensures Snapshot() == if st == Status.OK then Recovered(old(Snapshot()), now, minted) else old(Snapshot())
    {
      if s.state == Free { return Status.NOT_FOUND; }
      if !(s.hasOwner && s.owner == peer) { return Status.NOT_PERMITTED; }
      if presented != token { return Status.NOT_PERMITTED; }
      s := s.(state := Leased, attachId := nextAttachId);
      nextAttachId := nextAttachId + 1;
      s := s.(leaseEpoch := s.leaseEpoch + 1, incarnation := s.incarnation + 1);
      s := s.(lastHeardNs := now, sinceNs := now);
      token := minted;
      st := Status.OK;
    }
  }

  /** A replayed recovery is refused: with fresh tokens, one token recovers a lease once. */
  lemma RecoveryTokenIsOneUse(b: Books, peer: Peer, token: RecoveryToken, now: nat, minted: RecoveryToken)
    requires RecoverVerdict(b, peer, token) == Status.OK && minted != token
    ensures RecoverVerdict(Recovered(b, now, minted), peer, token) == Status.NOT_PERMITTED
  {}

  /** Only attach ids are monotone: after a release the lease epoch and the incarnation start over. */
  lemma EpochsStartOver(b: Books, owner: Peer, peer: Peer, uid: Uid, now: nat, minted: RecoveryToken)
    requires IsOwner(b, owner)
    ensures var g := Grant(Release(b, owner, now), peer, uid, now, minted);
            g.lease.leaseEpoch == 1 && g.lease.incarnation == 1 && g.lease.attachId == b.nextAttachId
  {}
}
