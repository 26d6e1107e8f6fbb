/** Provisioning and reclaiming RU boxes: two transactions over the box, cover-domain,
    credential, shard and audit tables. */
module Provision {
  import opened Prelude
  import opened Text

  datatype BoxState = Provisioning | Live | Terminated

  datatype Box = Box(state: BoxState, sni: string, shard: string, imageVersion: string, createdAt: int,
                     isCanary: bool, realityUuid: Option<string>, publicIp: Option<string>,
                     wentLiveAt: Option<int>, terminatedAt: Option<int>, reason: Option<string>)

  datatype CoverState = Unverified | Verified | InUse

  datatype Cover = Cover(state: CoverState, addedAt: int, verifiedAt: Option<int>,
                         holder: Option<string>, enteredInUseAt: Option<int>)

  datatype Cred = Cred(box: string, credential: string, issuedAt: int, revokedAt: Option<int>, authority: nat)

  datatype Shard = Shard(createdAt: int, retiredAt: Option<int>)

  datatype AuditRow = AuditRow(ts: int, action: string, target: string)

  datatype Db = Db(boxes: map<string, Box>, pool: map<string, Cover>, creds: map<string, Cred>,
                   shards: map<string, Shard>, audit: seq<AuditRow>)

  /** What the operation reads from tables it never writes. */
  datatype Env = Env(authority: Option<Authority>, image: Option<string>, hasDescriptor: bool,
                     hasSigningKey: bool, descriptorEncodes: bool)
  datatype Authority = Authority(generation: nat, placeholder: bool)

  /** Identifiers drawn for one provisioning, and the credential signed for them. */
  datatype Ids = Ids(box: string, cred: string, realityUuid: string, credential: string)

  datatype Request = Request(shard: string, isCanary: bool, now: int)

  datatype Error =
    | NoAuthority | PlaceholderAuthority | NoImage | NoCandidate | NoDescriptor | NoSigningKey | DescriptorTooLong
    | NoShard | ShardRetired | IntegrityError | CoverTaken | Interrupted
    | BoxNotFound | NotProvisioning
    | NoImageUrl

  datatype Tx = Ok(db: Db) | Failed(error: Error) {
    predicate IsFailure() { Failed? }
    function PropagateFailure(): Tx requires Failed? { this }
    function Extract(): Db requires Ok? { db }
  }

  predicate Active(b: Box) { b.state != Terminated }

  // ---- the statements of the provisioning transaction ----

  function ShardOf(r: Request): string {
    if r.shard == "" then "default_shard" else r.shard
  }

  function BindShard(db: Db, shard: string, now: int): Tx {
    if shard !in db.shards then
      if shard == "default_shard" then Ok(db.(shards := db.shards[shard := Shard(now, None)]))
      else Failed(NoShard)
    else if db.shards[shard].retiredAt.Some? then Failed(ShardRetired)
    else Ok(db)
  }

  predicate Releases(b: Box, domain: string) { b.sni == domain && b.state == Terminated }

  /** The new sni of a released box is already held by another box. */
  predicate ReleaseClashes(boxes: map<string, Box>, domain: string) {
    exists id | id in boxes :: Releases(boxes[id], domain) && SniHeldByOther(boxes, id, "released:" + id)
  }

  predicate SniHeldByOther(boxes: map<string, Box>, id: string, sni: string) {
    exists other | other in boxes :: other != id && boxes[other].sni == sni
  }

  function Released(boxes: map<string, Box>, domain: string): map<string, Box> {
    map id | id in boxes ::
      if Releases(boxes[id], domain) then boxes[id].(sni := "released:" + id) else boxes[id]
  }

  function ReleaseSni(db: Db, domain: string): Tx {
    if ReleaseClashes(db.boxes, domain) then Failed(IntegrityError)
    else Ok(db.(boxes := Released(db.boxes, domain)))
  }

  predicate SniHeld(boxes: map<string, Box>, sni: string) {
    exists id | id in boxes :: boxes[id].sni == sni
  }

  function InsertBox(db: Db, domain: string, ids: Ids, r: Request, image: string): Tx {
    if ids.box in db.boxes || SniHeld(db.boxes, domain) then Failed(IntegrityError)
    else Ok(db.(boxes := db.boxes[ids.box :=
      Box(Provisioning, domain, ShardOf(r), image, r.now, r.isCanary, None, None, None, None, None)]))
  }

  predicate UuidHeld(boxes: map<string, Box>, uuid: string) {
    exists id | id in boxes :: boxes[id].realityUuid == Some(uuid)
  }

  function SetRealityUuid(db: Db, ids: Ids): Tx
    requires ids.box in db.boxes
  {
    if UuidHeld(db.boxes, ids.realityUuid) then Failed(IntegrityError)
    else Ok(db.(boxes := db.boxes[ids.box := db.boxes[ids.box].(realityUuid := Some(ids.realityUuid))]))
  }

  function TakeCover(db: Db, domain: string, box: string, now: int): Tx {
    if domain !in db.pool || db.pool[domain].state != Verified then Failed(CoverTaken)
    else Ok(db.(pool := db.pool[domain :=
      db.pool[domain].(state := InUse, holder := Some(box), enteredInUseAt := Some(now))]))
  }

  function InsertCred(db: Db, ids: Ids, now: int, authority: nat): Tx {
    if ids.cred in db.creds then Failed(IntegrityError)
    else Ok(db.(creds := db.creds[ids.cred := Cred(ids.box, ids.credential, now, None, authority)]))
  }

  function Audited(db: Db, ts: int, action: string, target: string): Db {
    db.(audit := db.audit + [AuditRow(ts, action, target)])
  }

  /** The statements on the shard and box tables. */
  function BoxRows(db: Db, domain: string, ids: Ids, r: Request, image: string): Tx {
    var db1 :- BindShard(db, ShardOf(r), r.now);
    var db2 :- ReleaseSni(db1, domain);
    var db3 :- InsertBox(db2, domain, ids, r, image);
    SetRealityUuid(db3, ids)
  }

  /** The whole transaction on a picked domain. */
  function ProvisionTx(db: Db, domain: string, ids: Ids, r: Request, image: string, authority: nat): Tx {
    var db4 :- BoxRows(db, domain, ids, r, image);
    var db5 :- TakeCover(db4, domain, ids.box, r.now);
    var db6 :- InsertCred(db5, ids, r.now, authority);
    Ok(Audited(db6, r.now, "box_provisioned", ids.box))
  }

  // ---- the oldest verified candidate ----

  predicate Candidate(pool: map<string, Cover>, d: string) { d in pool && pool[d].state == Verified }

  predicate OlderThan(pool: map<string, Cover>, d: string, e: string)
    requires d in pool && e in pool
  {
    pool[d].addedAt < pool[e].addedAt || (pool[d].addedAt == pool[e].addedAt && Less(d, e))
  }

  ghost predicate Oldest(pool: map<string, Cover>, d: string) {
    && Candidate(pool, d)
    && forall e :: Candidate(pool, e) ==>
         pool[d].addedAt <= pool[e].addedAt && (pool[d].addedAt == pool[e].addedAt ==> !Less(e, d))
  }

  lemma OldestIsUnique(pool: map<string, Cover>, d: string, e: string)
    requires Oldest(pool, d) && Oldest(pool, e)
    ensures d == e
  {
    LessTotal(d, e);
  }

  // ---- reclaim ----

  function RevokeAll(creds: map<string, Cred>, box: string, now: int): map<string, Cred> {
    map c | c in creds ::
      if creds[c].box == box && creds[c].revokedAt.None? then creds[c].(revokedAt := Some(now)) else creds[c]
  }

  function ReturnCover(db: Db, box: string, sni: string, now: int): Db {
    if sni in db.pool && db.pool[sni].state == InUse && db.pool[sni].holder == Some(box) then
      Audited(db.(pool := db.pool[sni := db.pool[sni].(state := Verified, holder := None, enteredInUseAt := None)]),
              now, "cover_reclaimed", sni)
    else db
  }

  function Reclaim(db: Db, box: string, reason: string, now: int): Tx {
    if box !in db.boxes then Failed(BoxNotFound)
    else if db.boxes[box].state != Provisioning then Failed(NotProvisioning)
    else
      var sni := db.boxes[box].sni;
      var db1 := db.(boxes := db.boxes[box :=
        db.boxes[box].(state := Terminated, terminatedAt := Some(now), reason := Some("reclaimed: " + reason))]);
      var db2 := ReturnCover(db1, box, sni, now);
      var db3 := db2.(creds := RevokeAll(db2.creds, box, now));
      Ok(Audited(db3, now, "box_reclaimed", box))
  }

  // ---- the other operations on these tables ----

  function AddCandidate(db: Db, domain: string, at: int): Tx {
    if domain in db.pool then Failed(IntegrityError)
    else Ok(db.(pool := db.pool[domain := Cover(Unverified, at, None, None, None)]))
  }

  function Attest(db: Db, domain: string, at: int): Tx {
    if domain !in db.pool || db.pool[domain].state != Unverified then Failed(CoverTaken)
    else Ok(db.(pool := db.pool[domain := db.pool[domain].(state := Verified, verifiedAt := Some(at))]))
  }

  function MarkLive(db: Db, box: string, ip: string, at: int): Tx {
    if box !in db.boxes || db.boxes[box].state != Provisioning then Failed(NotProvisioning)
    else Ok(db.(boxes := db.boxes[box := db.boxes[box].(state := Live, publicIp := Some(ip), wentLiveAt := Some(at))]))
  }

  /** What the other three operations answer and change: a new domain is unverified, an unverified one
      becomes verified, a provisioned box goes live; each touches one row. */
  lemma EditsExactly(db: Db, d: string, box: string, ip: string, at: int)
    ensures AddCandidate(db, d, at) == if d in db.pool then Failed(IntegrityError)
      else Ok(db.(pool := db.pool[d := Cover(Unverified, at, None, None, None)]))
    ensures if d in db.pool && db.pool[d].state == Unverified
      then Attest(db, d, at) == Ok(db.(pool := db.pool[d := Cover(Verified, db.pool[d].addedAt, Some(at),
             db.pool[d].holder, db.pool[d].enteredInUseAt)]))
      else Attest(db, d, at) == Failed(CoverTaken)
    ensures if box in db.boxes && db.boxes[box].state == Provisioning
      then
        var b := db.boxes[box];
        MarkLive(db, box, ip, at) == Ok(db.(boxes := db.boxes[box := Box(Live, b.sni, b.shard, b.imageVersion,
          b.createdAt, b.isCanary, b.realityUuid, Some(ip), Some(at), b.terminatedAt, b.reason)]))
      else MarkLive(db, box, ip, at) == Failed(NotProvisioning)
  {}

  // ---- the invariant ----

  /** The domain is in use by exactly this box. */
  ghost predicate Holds(db: Db, id: string, d: string) {
    && id in db.boxes && Active(db.boxes[id]) && db.boxes[id].sni == d
    && d in db.pool && db.pool[d].state == InUse && db.pool[d].holder == Some(id)
  }

  ghost function Unrevoked(db: Db, id: string): set<string> {
    set c | c in db.creds && db.creds[c].box == id && db.creds[c].revokedAt.None?
  }

  ghost predicate PoolInv(db: Db) {
    && (forall d :: d in db.pool && db.pool[d].state == InUse ==>
         db.pool[d].holder.Some? && Holds(db, db.pool[d].holder.value, d))
    && (forall d :: d in db.pool && db.pool[d].state != InUse ==>
         db.pool[d].holder == None && db.pool[d].enteredInUseAt == None)
    && (forall id :: id in db.boxes && Active(db.boxes[id]) ==> Holds(db, id, db.boxes[id].sni))
  }

  ghost predicate SniUnique(boxes: map<string, Box>) {
    forall a, b :: a in boxes && b in boxes && a != b ==> boxes[a].sni != boxes[b].sni
  }

  ghost predicate CredInv(db: Db) {
    && (forall c :: c in db.creds ==> db.creds[c].box in db.boxes)
    && (forall id :: id in db.boxes ==> |Unrevoked(db, id)| == if Active(db.boxes[id]) then 1 else 0)
  }

  ghost predicate Inv(db: Db) { PoolInv(db) && SniUnique(db.boxes) && CredInv(db) }

  /** What a committed provisioning is, in closed form. */
  ghost predicate Provisioned(db: Db, db': Db, domain: string, ids: Ids, r: Request, image: string, authority: nat) {
    && Candidate(db.pool, domain) && ids.box !in db.boxes && ids.cred !in db.creds
    && db'.boxes == Released(db.boxes, domain)[ids.box :=
         Box(Provisioning, domain, ShardOf(r), image, r.now, r.isCanary, Some(ids.realityUuid), None, None, None, None)]
    && db'.pool == db.pool[domain :=
         db.pool[domain].(state := InUse, holder := Some(ids.box), enteredInUseAt := Some(r.now))]
    && db'.creds == db.creds[ids.cred := Cred(ids.box, ids.credential, r.now, None, authority)]
    && db'.shards == (if ShardOf(r) in db.shards then db.shards else db.shards[ShardOf(r) := Shard(r.now, None)])
    && db'.shards[ShardOf(r)].retiredAt.None?
    && db'.audit == db.audit + [AuditRow(r.now, "box_provisioned", ids.box)]
    && !ReleaseClashes(db.boxes, domain)
    && !SniHeld(Released(db.boxes, domain), domain)
  }

  lemma InsertedBox(db2: Db, domain: string, ids: Ids, r: Request, image: string)
    requires InsertBox(db2, domain, ids, r, image).Ok?
    requires SetRealityUuid(InsertBox(db2, domain, ids, r, image).db, ids).Ok?
    ensures ids.box !in db2.boxes && !SniHeld(db2.boxes, domain)
    ensures SetRealityUuid(InsertBox(db2, domain, ids, r, image).db, ids).db == db2.(boxes := db2.boxes[ids.box :=
      Box(Provisioning, domain, ShardOf(r), image, r.now, r.isCanary, Some(ids.realityUuid), None, None, None, None)])
  {}

  lemma BoxRowsEffect(db: Db, domain: string, ids: Ids, r: Request, image: string)
    requires BoxRows(db, domain, ids, r, image).Ok?
    ensures ids.box !in db.boxes && !ReleaseClashes(db.boxes, domain) && !SniHeld(Released(db.boxes, domain), domain)
    ensures BoxRows(db, domain, ids, r, image).db == db.(
      boxes := Released(db.boxes, domain)[ids.box :=
        Box(Provisioning, domain, ShardOf(r), image, r.now, r.isCanary, Some(ids.realityUuid), None, None, None, None)],
      shards := if ShardOf(r) in db.shards then db.shards else db.shards[ShardOf(r) := Shard(r.now, None)])
    ensures BoxRows(db, domain, ids, r, image).db.shards[ShardOf(r)].retiredAt.None?
  {
    var db1 := BindShard(db, ShardOf(r), r.now).db;
    InsertedBox(ReleaseSni(db1, domain).db, domain, ids, r, image);
  }

  lemma RestEffect(db4: Db, domain: string, ids: Ids, r: Request, authority: nat)
    requires TakeCover(db4, domain, ids.box, r.now).Ok?
    requires InsertCred(TakeCover(db4, domain, ids.box, r.now).db, ids, r.now, authority).Ok?
    ensures Candidate(db4.pool, domain) && ids.cred !in db4.creds
    ensures InsertCred(TakeCover(db4, domain, ids.box, r.now).db, ids, r.now, authority).db == db4.(
      pool := db4.pool[domain :=
        db4.pool[domain].(state := InUse, holder := Some(ids.box), enteredInUseAt := Some(r.now))],
      creds := db4.creds[ids.cred := Cred(ids.box, ids.credential, r.now, None, authority)])
  {}

  lemma TxEffect(db: Db, domain: string, ids: Ids, r: Request, image: string, authority: nat)
    requires ProvisionTx(db, domain, ids, r, image, authority).Ok?
    ensures Provisioned(db, ProvisionTx(db, domain, ids, r, image, authority).db, domain, ids, r, image, authority)
  {
    BoxRowsEffect(db, domain, ids, r, image);
    RestEffect(BoxRows(db, domain, ids, r, image).db, domain, ids, r, authority);
  }

  /** What a committed provisioning changes, table by table: the box is new and carries the domain, of
      which terminated boxes let go; the domain, verified before, is in use by the box; the credential
      is new; the shard is one not retired, the default one made on demand. */
  lemma ProvisionTxEffect(db: Db, domain: string, ids: Ids, r: Request, image: string, authority: nat)
    requires ProvisionTx(db, domain, ids, r, image, authority).Ok?
    ensures var after := ProvisionTx(db, domain, ids, r, image, authority).db;
      && ids.box !in db.boxes && after.boxes.Keys == db.boxes.Keys + {ids.box}
      && after.boxes[ids.box] == Box(Provisioning, domain, if r.shard == "" then "default_shard" else r.shard, image,
           r.now, r.isCanary, Some(ids.realityUuid), None, None, None, None)
      && (forall id :: id in db.boxes ==>
            after.boxes[id] == if db.boxes[id].sni == domain && db.boxes[id].state == Terminated
                               then db.boxes[id].(sni := "released:" + id) else db.boxes[id])
    ensures var after := ProvisionTx(db, domain, ids, r, image, authority).db;
      && domain in db.pool && db.pool[domain].state == Verified
      && after.pool == db.pool[domain := Cover(InUse, db.pool[domain].addedAt, db.pool[domain].verifiedAt,
           Some(ids.box), Some(r.now))]
      && ids.cred !in db.creds
      && after.creds == db.creds[ids.cred := Cred(ids.box, ids.credential, r.now, None, authority)]
      && after.audit == db.audit + [AuditRow(r.now, "box_provisioned", ids.box)]
    ensures var shard := if r.shard == "" then "default_shard" else r.shard;
      var after := ProvisionTx(db, domain, ids, r, image, authority).db;
      && shard in after.shards && after.shards[shard].retiredAt.None?
      && if shard in db.shards then after.shards == db.shards
         else shard == "default_shard" && after.shards == db.shards[shard := Shard(r.now, None)]
  {
    TxEffect(db, domain, ids, r, image, authority);
  }

  lemma ReleasedKeepsUnique(boxes: map<string, Box>, domain: string)
    requires SniUnique(boxes) && !ReleaseClashes(boxes, domain)
    ensures SniUnique(Released(boxes, domain))
  {
    var out := Released(boxes, domain);
    forall a, b | a in out && b in out && a != b ensures out[a].sni != out[b].sni {
      if Releases(boxes[a], domain) { assert !SniHeldByOther(boxes, a, "released:" + a); }
      if Releases(boxes[b], domain) { assert !SniHeldByOther(boxes, b, "released:" + b); }
    }
  }

  lemma ProvisionKeepsPool(db: Db, db': Db, domain: string, ids: Ids, r: Request, image: string, authority: nat)
    requires Inv(db) && Provisioned(db, db', domain, ids, r, image, authority)
    ensures PoolInv(db')
  {
    forall d | d in db'.pool && db'.pool[d].state == InUse
      ensures db'.pool[d].holder.Some? && Holds(db', db'.pool[d].holder.value, d)
    {
      if d != domain { assert Holds(db, db.pool[d].holder.value, d); }
    }
    forall id | id in db'.boxes && Active(db'.boxes[id]) ensures Holds(db', id, db'.boxes[id].sni) {
      if id != ids.box { assert Holds(db, id, db.boxes[id].sni); }
    }
  }

  lemma ProvisionKeepsSni(db: Db, db': Db, domain: string, ids: Ids, r: Request, image: string, authority: nat)
    requires Inv(db) && Provisioned(db, db', domain, ids, r, image, authority)
    ensures SniUnique(db'.boxes)
  {
    var out := Released(db.boxes, domain);
    ReleasedKeepsUnique(db.boxes, domain);
    forall a, b | a in db'.boxes && b in db'.boxes && a != b ensures db'.boxes[a].sni != db'.boxes[b].sni {
      if a == ids.box { assert out[b].sni != domain; }
      if b == ids.box { assert out[a].sni != domain; }
    }
  }

  lemma ProvisionKeepsCreds(db: Db, db': Db, domain: string, ids: Ids, r: Request, image: string, authority: nat)
    requires Inv(db) && Provisioned(db, db', domain, ids, r, image, authority)
    ensures CredInv(db')
  {
    OneCredMore(db, db', ids.cred, db'.creds[ids.cred], ids.box);
  }

  /** A fresh active box with one fresh credential, the others staying active or not. */
  lemma OneCredMore(db: Db, db': Db, c: string, cred: Cred, box: string)
    requires CredInv(db) && c !in db.creds && db'.creds == db.creds[c := cred] && cred.revokedAt.None?
    requires cred.box == box && box !in db.boxes && db'.boxes.Keys == db.boxes.Keys + {box} && Active(db'.boxes[box])
    requires forall id :: id in db.boxes ==> Active(db'.boxes[id]) == Active(db.boxes[id])
    ensures CredInv(db')
  {
    UnrevokedAfterInsert(db, db', c, cred);
    assert Unrevoked(db, box) == {};
  }

  lemma UnrevokedAfterInsert(db: Db, db': Db, c: string, cred: Cred)
    requires c !in db.creds && db'.creds == db.creds[c := cred] && cred.revokedAt.None?
    ensures Unrevoked(db', cred.box) == Unrevoked(db, cred.box) + {c}
    ensures forall id :: id != cred.box ==> Unrevoked(db', id) == Unrevoked(db, id)
  {
    forall id | id != cred.box ensures Unrevoked(db', id) == Unrevoked(db, id) {}
  }

  lemma ProvisionKeeps(db: Db, domain: string, ids: Ids, r: Request, image: string, authority: nat)
    requires Inv(db) && ProvisionTx(db, domain, ids, r, image, authority).Ok?
    ensures Inv(ProvisionTx(db, domain, ids, r, image, authority).db)
  {
    var db' := ProvisionTx(db, domain, ids, r, image, authority).db;
    TxEffect(db, domain, ids, r, image, authority);
    ProvisionKeepsPool(db, db', domain, ids, r, image, authority);
    ProvisionKeepsSni(db, db', domain, ids, r, image, authority);
    ProvisionKeepsCreds(db, db', domain, ids, r, image, authority);
  }

  /** What a committed reclaim is, in closed form, for tables that keep the invariant. */
  ghost predicate Reclaimed(db: Db, db': Db, id: string, reason: string, now: int) {
    && id in db.boxes && db.boxes[id].state == Provisioning
    && var sni := db.boxes[id].sni;
       && Holds(db, id, sni)
       && db'.boxes == db.boxes[id := db.boxes[id].(state := Terminated, terminatedAt := Some(now),
            reason := Some("reclaimed: " + reason))]
       && db'.pool == db.pool[sni := db.pool[sni].(state := Verified, holder := None, enteredInUseAt := None)]
       && db'.creds == RevokeAll(db.creds, id, now) && db'.shards == db.shards
       && db'.audit == db.audit + [AuditRow(now, "cover_reclaimed", sni), AuditRow(now, "box_reclaimed", id)]
  }

  lemma ReclaimEffect(db: Db, id: string, reason: string, now: int)
    requires PoolInv(db) && Reclaim(db, id, reason, now).Ok?
    ensures Reclaimed(db, Reclaim(db, id, reason, now).db, id, reason, now)
  {
    assert Holds(db, id, db.boxes[id].sni);
  }

  /** What a reclaim answers and changes, table by table. */
  lemma ReclaimTxEffect(db: Db, id: string, reason: string, now: int)
    requires Inv(db)
    ensures var tx := Reclaim(db, id, reason, now);
      if id !in db.boxes then tx == Failed(BoxNotFound)
      else if db.boxes[id].state != Provisioning then tx == Failed(NotProvisioning)
      else
        var sni := db.boxes[id].sni;
        && tx.Ok? && sni in db.pool
        && tx.db.boxes == db.boxes[id := db.boxes[id].(state := Terminated, terminatedAt := Some(now),
             reason := Some("reclaimed: " + reason))]
        && tx.db.pool == db.pool[sni := Cover(Verified, db.pool[sni].addedAt, db.pool[sni].verifiedAt, None, None)]
        && tx.db.creds.Keys == db.creds.Keys
        && (forall c :: c in db.creds ==>
              tx.db.creds[c] == if db.creds[c].box == id && db.creds[c].revokedAt.None?
                                then db.creds[c].(revokedAt := Some(now)) else db.creds[c])
        && tx.db.shards == db.shards
        && tx.db.audit == db.audit + [AuditRow(now, "cover_reclaimed", sni), AuditRow(now, "box_reclaimed", id)]
  {
    if Reclaim(db, id, reason, now).Ok? { ReclaimEffect(db, id, reason, now); }
  }

  lemma ReclaimKeepsPool(db: Db, db': Db, id: string, reason: string, now: int)
    requires Inv(db) && Reclaimed(db, db', id, reason, now)
    ensures PoolInv(db')
  {
    var sni := db.boxes[id].sni;
    forall d | d in db'.pool && db'.pool[d].state == InUse
      ensures db'.pool[d].holder.Some? && Holds(db', db'.pool[d].holder.value, d)
    {
      assert d != sni && Holds(db, db.pool[d].holder.value, d);
    }
    forall other | other in db'.boxes && Active(db'.boxes[other]) ensures Holds(db', other, db'.boxes[other].sni) {
      assert other != id && Holds(db, other, db.boxes[other].sni);
      assert db.boxes[other].sni != sni;
    }
  }

  lemma ReclaimKeepsCreds(db: Db, db': Db, id: string, reason: string, now: int)
    requires Inv(db) && Reclaimed(db, db', id, reason, now)
    ensures CredInv(db') && Unrevoked(db', id) == {}
  {
    UnrevokedAfterRevoke(db, db', id, now);
  }

  lemma UnrevokedAfterRevoke(db: Db, db': Db, id: string, now: int)
    requires db'.creds == RevokeAll(db.creds, id, now)
    ensures Unrevoked(db', id) == {}
    ensures forall other :: other != id ==> Unrevoked(db', other) == Unrevoked(db, other)
  {
    forall other | other != id ensures Unrevoked(db', other) == Unrevoked(db, other) {}
  }

  lemma ReclaimKeeps(db: Db, id: string, reason: string, now: int)
    requires Inv(db) && Reclaim(db, id, reason, now).Ok?
    ensures Inv(Reclaim(db, id, reason, now).db)
    ensures Unrevoked(Reclaim(db, id, reason, now).db, id) == {}
  {
    var db' := Reclaim(db, id, reason, now).db;
    ReclaimEffect(db, id, reason, now);
    ReclaimKeepsPool(db, db', id, reason, now);
    ReclaimKeepsCreds(db, db', id, reason, now);
  }

  lemma AddKeeps(db: Db, domain: string, at: int)
    requires Inv(db) && AddCandidate(db, domain, at).Ok?
    ensures Inv(AddCandidate(db, domain, at).db)
  {
    OnlyPoolEdited(db, AddCandidate(db, domain, at).db, domain);
  }

  lemma AttestKeeps(db: Db, domain: string, at: int)
    requires Inv(db) && Attest(db, domain, at).Ok?
    ensures Inv(Attest(db, domain, at).db)
  {
    OnlyPoolEdited(db, Attest(db, domain, at).db, domain);
  }

  /** Editing the row of a domain that is not in use, leaving it not in use, keeps everything. */
  lemma OnlyPoolEdited(db: Db, db': Db, domain: string)
    requires Inv(db) && (domain in db.pool ==> db.pool[domain].state != InUse)
    requires db'.boxes == db.boxes && db'.creds == db.creds
    requires domain in db'.pool && db'.pool == db.pool[domain := db'.pool[domain]]
    requires db'.pool[domain].state != InUse && db'.pool[domain].holder == None
      && db'.pool[domain].enteredInUseAt == None
    ensures Inv(db')
  {
    forall d | d in db'.pool && db'.pool[d].state == InUse
      ensures db'.pool[d].holder.Some? && Holds(db', db'.pool[d].holder.value, d)
    {
      assert d != domain && Holds(db, db.pool[d].holder.value, d);
    }
    forall id | id in db'.boxes && Active(db'.boxes[id]) ensures Holds(db', id, db'.boxes[id].sni) {
      assert Holds(db, id, db.boxes[id].sni);
    }
    forall id | id in db'.boxes ensures Unrevoked(db', id) == Unrevoked(db, id) {}
  }

  lemma MarkLiveKeeps(db: Db, box: string, ip: string, at: int)
    requires Inv(db) && MarkLive(db, box, ip, at).Ok?
    ensures Inv(MarkLive(db, box, ip, at).db)
  {
    var db' := MarkLive(db, box, ip, at).db;
    forall d | d in db'.pool && db'.pool[d].state == InUse
      ensures db'.pool[d].holder.Some? && Holds(db', db'.pool[d].holder.value, d)
    {
      assert Holds(db, db.pool[d].holder.value, d);
    }
    forall id | id in db'.boxes && Active(db'.boxes[id]) ensures Holds(db', id, db'.boxes[id].sni) {
      assert Holds(db, id, db.boxes[id].sni);
    }
    forall id | id in db'.boxes ensures Unrevoked(db', id) == Unrevoked(db, id) {}
  }

  // ---- runs ----

  datatype Op =
    | Add(domain: string, at: int)
    | Verify(domain: string, at: int)
    | ProvisionOne(domain: string, ids: Ids, request: Request, image: string, authority: nat)
    | GoLive(box: string, ip: string, at: int)
    | ReclaimOne(box: string, reason: string, at: int)

  function Attempt(db: Db, op: Op): Tx {
    match op
    case Add(d, at) => AddCandidate(db, d, at)
    case Verify(d, at) => Attest(db, d, at)
    case ProvisionOne(d, ids, r, image, authority) => ProvisionTx(db, d, ids, r, image, authority)
    case GoLive(b, ip, at) => MarkLive(db, b, ip, at)
    case ReclaimOne(b, reason, at) => Reclaim(db, b, reason, at)
  }

  /** A failed operation leaves the tables as they were. */
  function Apply(db: Db, op: Op): Db {
    match Attempt(db, op) case Ok(db') => db' case Failed(_) => db
  }

  function ApplyAll(db: Db, ops: seq<Op>): Db
    decreases |ops|
  {
    if ops == [] then db else ApplyAll(Apply(db, ops[0]), ops[1..])
  }

  const NOTHING := Db(map[], map[], map[], map[], [])

  /** Over every run: domains in use and active boxes correspond one to one, no two boxes share
      an sni, an active box has exactly one unrevoked credential and any other box none. */
  lemma {:induction false} RunKeepsInv(db: Db, ops: seq<Op>)
    requires Inv(db)
    ensures Inv(ApplyAll(db, ops))
    decreases |ops|
  {
    if ops != [] {
      if Attempt(db, ops[0]).Ok? {
        match ops[0]
        case Add(d, at) => AddKeeps(db, d, at);
        case Verify(d, at) => AttestKeeps(db, d, at);
        case ProvisionOne(d, ids, r, image, authority) => ProvisionKeeps(db, d, ids, r, image, authority);
        case GoLive(b, ip, at) => MarkLiveKeeps(db, b, ip, at);
        case ReclaimOne(b, reason, at) => ReclaimKeeps(db, b, reason, at);
      }
      RunKeepsInv(Apply(db, ops[0]), ops[1..]);
    }
  }

  /** The correspondence spelt out for a run from empty tables. */
  lemma OneToOne(ops: seq<Op>, id: string, d: string)
    ensures var db := ApplyAll(NOTHING, ops);
      && (id in db.boxes && db.boxes[id].state != Terminated && db.boxes[id].sni == d
          <==> d in db.pool && db.pool[d].state == InUse && db.pool[d].holder == Some(id))
      && (forall a, b :: a in db.boxes && b in db.boxes && a != b ==> db.boxes[a].sni != db.boxes[b].sni)
      && (id in db.boxes ==>
            |set c | c in db.creds && db.creds[c].box == id && db.creds[c].revokedAt.None?|
              == if db.boxes[id].state != Terminated then 1 else 0)
  {
    var db := ApplyAll(NOTHING, ops);
    RunKeepsInv(NOTHING, ops);
    assert Unrevoked(db, id) == set c | c in db.creds && db.creds[c].box == id && db.creds[c].revokedAt.None?;
    if d in db.pool && db.pool[d].state == InUse { assert Holds(db, db.pool[d].holder.value, d); }
    if id in db.boxes && Active(db.boxes[id]) { assert Holds(db, id, db.boxes[id].sni); }
  }

  // ---- provisioning and reclaiming again ----

  /** Reclaiming what was just provisioned restores the cover pool exactly, so the same domain
      is the oldest candidate again. */
  lemma ReclaimUndoesProvision(db: Db, domain: string, ids: Ids, r: Request, image: string, authority: nat,
                               reason: string, now: int)
    requires Inv(db) && Oldest(db.pool, domain)
    requires ProvisionTx(db, domain, ids, r, image, authority).Ok?
    ensures var db1 := ProvisionTx(db, domain, ids, r, image, authority).db;
      && Reclaim(db1, ids.box, reason, now).Ok?
      && Reclaim(db1, ids.box, reason, now).db.pool == db.pool
      && Oldest(Reclaim(db1, ids.box, reason, now).db.pool, domain)
  {
    var db1 := ProvisionTx(db, domain, ids, r, image, authority).db;
    TxEffect(db, domain, ids, r, image, authority);
    ProvisionKeeps(db, domain, ids, r, image, authority);
    ReclaimEffect(db1, ids.box, reason, now);
    assert db.pool[domain] == Reclaim(db1, ids.box, reason, now).db.pool[domain];
  }

  predicate ShardUsable(db: Db, shard: string) {
    if shard in db.shards then db.shards[shard].retiredAt.None? else shard == "default_shard"
  }

  /** The picked sni is free after the release unless a released name is the domain itself. */
  lemma SniFreeAfterRelease(db: Db, domain: string)
    requires Inv(db) && Candidate(db.pool, domain)
    ensures SniHeld(Released(db.boxes, domain), domain) <==>
            exists id :: id in db.boxes && Releases(db.boxes[id], domain) && "released:" + id == domain
  {
    var out := Released(db.boxes, domain);
    forall id | id in db.boxes && Active(db.boxes[id]) ensures db.boxes[id].sni != domain {
      assert Holds(db, id, db.boxes[id].sni);
    }
    if SniHeld(out, domain) {
      var id :| id in out && out[id].sni == domain;
      assert Releases(db.boxes[id], domain);
    }
    if id :| id in db.boxes && Releases(db.boxes[id], domain) && "released:" + id == domain {
      assert out[id].sni == domain;
    }
  }

  lemma UuidUnaffected(boxes: map<string, Box>, domain: string, id: string, b: Box, uuid: string)
    requires id !in boxes && b.realityUuid.None?
    ensures UuidHeld(Released(boxes, domain)[id := b], uuid) <==> UuidHeld(boxes, uuid)
  {
    var named := Released(boxes, domain)[id := b];
    forall other | other in boxes ensures other in named && named[other].realityUuid == boxes[other].realityUuid {}
  }

  /** The conditions the statements check, in their order. */
  lemma StatementsCheck(db: Db, domain: string, ids: Ids, r: Request, image: string, authority: nat)
    ensures ProvisionTx(db, domain, ids, r, image, authority).Ok? <==>
      && ShardUsable(db, ShardOf(r)) && !ReleaseClashes(db.boxes, domain)
      && ids.box !in db.boxes && !SniHeld(Released(db.boxes, domain), domain)
      && !UuidHeld(Released(db.boxes, domain)[ids.box :=
           Box(Provisioning, domain, ShardOf(r), image, r.now, r.isCanary, None, None, None, None, None)],
             ids.realityUuid)
      && Candidate(db.pool, domain) && ids.cred !in db.creds
  {}

  lemma ClashMeans(boxes: map<string, Box>, domain: string)
    ensures ReleaseClashes(boxes, domain) <==>
      exists id, other :: id in boxes && other in boxes && id != other && boxes[id].sni == domain
        && boxes[id].state == Terminated && boxes[other].sni == "released:" + id
  {
    if id, other :| id in boxes && other in boxes && id != other && boxes[id].sni == domain
                    && boxes[id].state == Terminated && boxes[other].sni == "released:" + id {
      assert Releases(boxes[id], domain) && SniHeldByOther(boxes, id, "released:" + id);
    }
    if ReleaseClashes(boxes, domain) {
      var id :| id in boxes && Releases(boxes[id], domain) && SniHeldByOther(boxes, id, "released:" + id);
      var other :| other in boxes && other != id && boxes[other].sni == "released:" + id;
    }
  }

  lemma FailureKind(db: Db, domain: string, ids: Ids, r: Request, image: string, authority: nat)
    requires Candidate(db.pool, domain) && ProvisionTx(db, domain, ids, r, image, authority).Failed?
    ensures ProvisionTx(db, domain, ids, r, image, authority).error ==
      if ShardOf(r) !in db.shards && ShardOf(r) != "default_shard" then NoShard
      else if ShardOf(r) in db.shards && db.shards[ShardOf(r)].retiredAt.Some? then ShardRetired
      else IntegrityError
  {}

  /** Exactly when the transaction commits on a verified domain: the shard is there and not retired or
      the default one, the drawn identifiers are unused, and each terminated box that still carries
      the domain can be renamed to something that no other box carries and is not the domain itself.
      And how it fails otherwise. */
  lemma CommitsExactly(db: Db, domain: string, ids: Ids, r: Request, image: string, authority: nat)
    requires Inv(db) && domain in db.pool && db.pool[domain].state == Verified
    ensures var shard := if r.shard == "" then "default_shard" else r.shard;
      var tx := ProvisionTx(db, domain, ids, r, image, authority);
      if shard !in db.shards && shard != "default_shard" then tx == Failed(NoShard)
      else if shard in db.shards && db.shards[shard].retiredAt.Some? then tx == Failed(ShardRetired)
      else if ids.box in db.boxes || ids.cred in db.creds
              || (exists id :: id in db.boxes && db.boxes[id].realityUuid == Some(ids.realityUuid))
              || (exists id :: id in db.boxes && db.boxes[id].sni == domain && db.boxes[id].state == Terminated
                    && "released:" + id == domain)
              || (exists id, other :: id in db.boxes && other in db.boxes && id != other
                    && db.boxes[id].sni == domain && db.boxes[id].state == Terminated
                    && db.boxes[other].sni == "released:" + id)
        then tx == Failed(IntegrityError)
      else tx.Ok?
  {
    CommitsWhen(db, domain, ids, r, image, authority);
    ClashMeans(db.boxes, domain);
    if ProvisionTx(db, domain, ids, r, image, authority).Failed? {
      FailureKind(db, domain, ids, r, image, authority);
    }
  }

  lemma CommitsWhen(db: Db, domain: string, ids: Ids, r: Request, image: string, authority: nat)
    requires Inv(db) && Candidate(db.pool, domain)
    ensures ProvisionTx(db, domain, ids, r, image, authority).Ok? <==>
      && ShardUsable(db, ShardOf(r))
      && ids.box !in db.boxes && ids.cred !in db.creds && !UuidHeld(db.boxes, ids.realityUuid)
      && !ReleaseClashes(db.boxes, domain)
      && !exists id :: id in db.boxes && Releases(db.boxes[id], domain) && "released:" + id == domain
  {
    StatementsCheck(db, domain, ids, r, image, authority);
    SniFreeAfterRelease(db, domain);
    if ids.box !in db.boxes {
      UuidUnaffected(db.boxes, domain, ids.box,
        Box(Provisioning, domain, ShardOf(r), image, r.now, r.isCanary, None, None, None, None, None), ids.realityUuid);
    }
  }

  /** Provision, reclaim, provision again: the same domain is picked, and the second transaction
      commits exactly when its shard is usable, its identifiers are unused and the name given to
      the reclaimed box is neither taken nor the domain itself. */
  lemma ProvisionAgain(db: Db, domain: string, ids: Ids, r: Request, image: string, authority: nat,
                       reason: string, now: int, ids2: Ids, r2: Request)
    requires Inv(db) && Oldest(db.pool, domain)
    requires ProvisionTx(db, domain, ids, r, image, authority).Ok?
    ensures var db1 := ProvisionTx(db, domain, ids, r, image, authority).db;
      && Reclaim(db1, ids.box, reason, now).Ok?
      && var db2 := Reclaim(db1, ids.box, reason, now).db;
         && Oldest(db2.pool, domain)
         && (ProvisionTx(db2, domain, ids2, r2, image, authority).Ok? <==>
               && ids2.box !in db2.boxes && ids2.cred !in db2.creds
               && (forall id :: id in db2.boxes ==> db2.boxes[id].realityUuid != Some(ids2.realityUuid))
               && (forall id :: id in db2.boxes && id != ids.box ==> db2.boxes[id].sni != "released:" + ids.box)
               && "released:" + ids.box != domain
               && var shard := if r2.shard == "" then "default_shard" else r2.shard;
                 if shard in db2.shards then db2.shards[shard].retiredAt.None? else shard == "default_shard")
         && (ProvisionTx(db2, domain, ids2, r2, image, authority).Ok? ==>
               Inv(ProvisionTx(db2, domain, ids2, r2, image, authority).db))
  {
    var db1 := ProvisionTx(db, domain, ids, r, image, authority).db;
    ReclaimUndoesProvision(db, domain, ids, r, image, authority, reason, now);
    ProvisionKeeps(db, domain, ids, r, image, authority);
    ReclaimKeeps(db1, ids.box, reason, now);
    var db2 := Reclaim(db1, ids.box, reason, now).db;
    ReclaimedBox(db, domain, ids, r, image, authority, reason, now);
    CommitsWhen(db2, domain, ids2, r2, image, authority);
    if ProvisionTx(db2, domain, ids2, r2, image, authority).Ok? {
      ProvisionKeeps(db2, domain, ids2, r2, image, authority);
    }
  }

  /** After provisioning and reclaiming, the one box that still carries the domain is the
      reclaimed one. */
  lemma ReclaimedBox(db: Db, domain: string, ids: Ids, r: Request, image: string, authority: nat,
                     reason: string, now: int)
    requires Inv(db) && ProvisionTx(db, domain, ids, r, image, authority).Ok?
    requires Reclaim(ProvisionTx(db, domain, ids, r, image, authority).db, ids.box, reason, now).Ok?
    ensures var db2 := Reclaim(ProvisionTx(db, domain, ids, r, image, authority).db, ids.box, reason, now).db;
      forall id :: id in db2.boxes && Releases(db2.boxes[id], domain) <==> id == ids.box
  {
    var db1 := ProvisionTx(db, domain, ids, r, image, authority).db;
    TxEffect(db, domain, ids, r, image, authority);
    ProvisionKeeps(db, domain, ids, r, image, authority);
    ReclaimEffect(db1, ids.box, reason, now);
  }

  // ---- the tables updated in place ----

  datatype Outcome = BoxProvisioned(domain: string) | ImageUrlFailed(domain: string) | Refused(error: Error)

  class Tables {
    var boxes: map<string, Box>
    var pool: map<string, Cover>
    var creds: map<string, Cred>
    var shards: map<string, Shard>
    var audit: seq<AuditRow>

    function Contents(): Db reads this { Db(boxes, pool, creds, shards, audit) }

    method Restore(db: Db)
      modifies this
      ensures Contents() == db
    {
      boxes, pool, creds, shards, audit := db.boxes, db.pool, db.creds, db.shards, db.audit;
    }

    /** The verified candidate added first, ties broken by name. */
    method PickOldest() returns (picked: Option<string>)
      ensures picked.Some? ==>
        && Oldest(pool, picked.value) && picked.value in pool && pool[picked.value].state == Verified
        && forall e :: e in pool && pool[e].state == Verified ==>
             && pool[picked.value].addedAt <= pool[e].addedAt
             && (pool[picked.value].addedAt == pool[e].addedAt ==> !Less(e, picked.value))
      ensures picked.None? ==> forall d :: d in pool ==> pool[d].state != Verified
    {
      picked := None;
      var rest := pool.Keys;
      while rest != {}
        invariant rest <= pool.Keys
        invariant picked.Some? ==> Candidate(pool, picked.value) && picked.value !in rest
        invariant forall d :: Candidate(pool, d) && d !in rest ==>
          picked.Some? && (d == picked.value || OlderThan(pool, picked.value, d))
        decreases |rest|
      {
        var d :| d in rest;
        if Candidate(pool, d) {
          if picked.None? {
            picked := Some(d);
          } else {
            CompareCandidates(pool, picked.value, d);
            if OlderThan(pool, d, picked.value) { picked := Some(d); }
          }
        }
        rest := rest - {d};
      }
      if picked.Some? { OlderThanAll(pool, picked.value); }
      assert forall d :: d in pool ==> Candidate(pool, d) || pool[d].state != Verified;
    }

    method BoxStatements(domain: string, ids: Ids, r: Request, image: string, fault: nat)
      returns (error: Option<Error>)
      modifies this
      ensures var tx := BoxRows(old(Contents()), domain, ids, r, image);
        fault == 0 || fault > 4 ==>
          if tx.Ok? then error == None && Contents() == tx.db else error == Some(tx.error)
      ensures 1 <= fault <= 4 ==> error.Some?
    {
      if fault == 1 { return Some(Interrupted); }
      var shard := ShardOf(r);
      if shard !in shards {
        if shard == "default_shard" {
          shards := shards[shard := Shard(r.now, None)];
        } else {
          return Some(NoShard);
        }
      } else if shards[shard].retiredAt.Some? {
        return Some(ShardRetired);
      }
      if fault == 2 { return Some(Interrupted); }
      if ReleaseClashes(boxes, domain) { return Some(IntegrityError); }
      boxes := Released(boxes, domain);
      if fault == 3 { return Some(Interrupted); }
      if ids.box in boxes || SniHeld(boxes, domain) { return Some(IntegrityError); }
      boxes := boxes[ids.box := Box(Provisioning, domain, shard, image, r.now, r.isCanary, None, None, None, None,
        None)];
      if fault == 4 { return Some(Interrupted); }
      if UuidHeld(boxes, ids.realityUuid) { return Some(IntegrityError); }
      boxes := boxes[ids.box := boxes[ids.box].(realityUuid := Some(ids.realityUuid))];
      return None;
    }

    /** The statements between BEGIN and COMMIT; statement number `fault` raises, 0 for none. */
    method Statements(domain: string, ids: Ids, r: Request, image: string, authority: nat, fault: nat)
      returns (error: Option<Error>)
      modifies this
      ensures var tx := ProvisionTx(old(Contents()), domain, ids, r, image, authority);
        fault == 0 || fault == 8 ==>
          if tx.Ok? then error == None && Contents() == tx.db else error == Some(tx.error)
      ensures 1 <= fault <= 7 ==> error.Some?
    {
      error := BoxStatements(domain, ids, r, image, fault);
      if error.Some? { return; }
      if fault == 5 { return Some(Interrupted); }
      if domain !in pool || pool[domain].state != Verified { return Some(CoverTaken); }
      pool := pool[domain := pool[domain].(state := InUse, holder := Some(ids.box), enteredInUseAt := Some(r.now))];
      if fault == 6 { return Some(Interrupted); }
      if ids.cred in creds { return Some(IntegrityError); }
      creds := creds[ids.cred := Cred(ids.box, ids.credential, r.now, None, authority)];
      if fault == 7 { return Some(Interrupted); }
      audit := audit + [AuditRow(r.now, "box_provisioned", ids.box)];
      return None;
    }

    /** All or nothing: when a statement (1 to 7) or the commit (8) raises, every table is as
        before; otherwise the oldest verified domain was provisioned, even if the image URL could
        not be minted. */
    method ProvisionBox(env: Env, ids: Ids, r: Request, fault: nat, urlFails: bool) returns (outcome: Outcome)
      requires fault <= 8
      modifies this
      ensures outcome.Refused? ==> Contents() == old(Contents())
      ensures !outcome.Refused? ==>
        && env.image.Some? && env.authority.Some? && Oldest(old(pool), outcome.domain)
        && ProvisionTx(old(Contents()), outcome.domain, ids, r, env.image.value, env.authority.value.generation)
             == Ok(Contents())
        && outcome.ImageUrlFailed? == urlFails
      ensures !outcome.Refused? ==>
        && outcome.domain in old(pool) && old(pool)[outcome.domain].state == Verified
        && forall e :: e in old(pool) && old(pool)[e].state == Verified ==>
             && old(pool)[outcome.domain].addedAt <= old(pool)[e].addedAt
             && (old(pool)[outcome.domain].addedAt == old(pool)[e].addedAt ==> !Less(e, outcome.domain))
      ensures
        if env.authority.None? then outcome == Refused(NoAuthority)
        else if env.authority.value.placeholder then outcome == Refused(PlaceholderAuthority)
        else if env.image.None? then outcome == Refused(NoImage)
        else if forall d :: d in old(pool) ==> old(pool)[d].state != Verified then outcome == Refused(NoCandidate)
        else if !env.hasDescriptor then outcome == Refused(NoDescriptor)
        else if !env.hasSigningKey then outcome == Refused(NoSigningKey)
        else if !env.descriptorEncodes then outcome == Refused(DescriptorTooLong)
        else if fault > 0 then outcome.Refused?
        else exists d ::
          && Oldest(old(pool), d)
          && var tx := ProvisionTx(old(Contents()), d, ids, r, env.image.value, env.authority.value.generation);
            outcome == if tx.Failed? then Refused(tx.error)
                       else if urlFails then ImageUrlFailed(d) else BoxProvisioned(d)
    {
      if env.authority.None? { return Refused(NoAuthority); }
      if env.authority.value.placeholder { return Refused(PlaceholderAuthority); }
      if env.image.None? { return Refused(NoImage); }
      var picked := PickOldest();
      if picked.None? { return Refused(NoCandidate); }
      assert Candidate(pool, picked.value);
      if !env.hasDescriptor { return Refused(NoDescriptor); }
      if !env.hasSigningKey { return Refused(NoSigningKey); }
      if !env.descriptorEncodes { return Refused(DescriptorTooLong); }
      var before := Contents();
      var error := Statements(picked.value, ids, r, env.image.value, env.authority.value.generation, fault);
      if error.None? && fault == 8 { error := Some(Interrupted); }
      if error.Some? {
        Restore(before);
        return Refused(error.value);
      }
      return if urlFails then ImageUrlFailed(picked.value) else BoxProvisioned(picked.value);
    }

    method ReclaimStatements(id: string, sni: string, reason: string, now: int, fault: nat) returns (failed: bool)
      requires id in boxes && boxes[id].state == Provisioning && boxes[id].sni == sni
      modifies this
      ensures fault == 0 || fault == 5 ==> !failed && Reclaim(old(Contents()), id, reason, now) == Ok(Contents())
      ensures 1 <= fault <= 4 ==> failed
    {
      if fault == 1 { return true; }
      boxes := boxes[id := boxes[id].(state := Terminated, terminatedAt := Some(now),
        reason := Some("reclaimed: " + reason))];
      if fault == 2 { return true; }
      if sni in pool && pool[sni].state == InUse && pool[sni].holder == Some(id) {
        pool := pool[sni := pool[sni].(state := Verified, holder := None, enteredInUseAt := None)];
        audit := audit + [AuditRow(now, "cover_reclaimed", sni)];
      }
      if fault == 3 { return true; }
      creds := RevokeAll(creds, id, now);
      if fault == 4 { return true; }
      audit := audit + [AuditRow(now, "box_reclaimed", id)];
      return false;
    }

    /** All or nothing: when a statement (1 to 4) or the commit (5) raises, every table is as before. */
    method ReclaimBox(id: string, reason: string, now: int, fault: nat) returns (r: Option<Error>)
      requires fault <= 5
      modifies this
      ensures r.Some? ==> Contents() == old(Contents())
      ensures var tx := Reclaim(old(Contents()), id, reason, now);
        if tx.Failed? then r == Some(tx.error)
        else if fault > 0 then r == Some(Interrupted)
        else r == None && Contents() == tx.db
    {
      if id !in boxes { return Some(BoxNotFound); }
      if boxes[id].state != Provisioning { return Some(NotProvisioning); }
      var before := Contents();
      var failed := ReclaimStatements(id, boxes[id].sni, reason, now, fault);
      if failed || fault == 5 {
        Restore(before);
        return Some(Interrupted);
      }
      return None;
    }
  }

  lemma OlderThanAll(pool: map<string, Cover>, d: string)
    requires Candidate(pool, d) && forall e :: Candidate(pool, e) ==> e == d || OlderThan(pool, d, e)
    ensures Oldest(pool, d)
    ensures forall e :: e in pool && pool[e].state == Verified ==>
      && pool[d].addedAt <= pool[e].addedAt && (pool[d].addedAt == pool[e].addedAt ==> !Less(e, d))
  {
    forall e | e in pool && pool[e].state == Verified
      ensures pool[d].addedAt <= pool[e].addedAt && (pool[d].addedAt == pool[e].addedAt ==> !Less(e, d))
    {
      assert Candidate(pool, e);
      if e == d { LessIrreflexive(d); } else if Less(e, d) && Less(d, e) { LessAsymmetric(d, e); }
    }
  }

  lemma CompareCandidates(pool: map<string, Cover>, d: string, e: string)
    requires Candidate(pool, d) && Candidate(pool, e) && d != e
    ensures OlderThan(pool, d, e) || OlderThan(pool, e, d)
    ensures OlderThan(pool, e, d) ==> forall x :: Candidate(pool, x) && OlderThan(pool, d, x) ==> OlderThan(pool, e, x)
  {
    LessTotal(d, e);
    forall x | Candidate(pool, x) && OlderThan(pool, d, x) && OlderThan(pool, e, d) ensures OlderThan(pool, e, x) {
      if pool[e].addedAt == pool[x].addedAt { LessTransitive(e, d, x); }
    }
  }
}
