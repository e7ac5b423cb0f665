/** Block flags of conversations: one conversation at a time, and a whole list with two set look-ups. */
module BlockFlags {
  import opened GroupRows
  import opened Ids
  import opened Lists

  datatype Conversation = Conversation(id: ConvId, isPrivate: bool, members: seq<Row>)
  datatype Flags = Flags(blockedByMe: bool, blockedMe: bool)
  datatype Block = Block(blockerId: UserId, blockedId: UserId)
  datatype Peer = Peer(conversationId: ConvId, otherUserId: UserId)

  const NO_FLAGS := Flags(false, false)

  /** The first active member other than the actor. */
  function Other(members: seq<Row>, actor: UserId): (r: Option<UserId>)
    ensures r.Some? ==> r.value != actor
  {
    if members == [] then None
    else if members[0].userId != actor && members[0].leftAt.None? then Some(members[0].userId)
    else Other(members[1..], actor)
  }

  function PeerOf(c: Conversation, actor: UserId): Option<UserId> {
    if c.isPrivate then Other(c.members, actor) else None
  }

  /** `blockFlagsForConversation`: two look-ups in the block table. */
  function FlagsFor(c: Conversation, actor: UserId, blocks: seq<Block>): Flags {
    match PeerOf(c, actor)
    case None => NO_FLAGS
    case Some(other) => Flags(Block(actor, other) in blocks, Block(other, actor) in blocks)
  }

  /** Row `i` is the first active one of somebody other than the actor. */
  ghost predicate FirstOther(members: seq<Row>, actor: UserId, i: int) {
    && 0 <= i < |members| && members[i].leftAt.None? && members[i].userId != actor
    && forall j :: 0 <= j < i ==> members[j].leftAt.Some? || members[j].userId == actor
  }

  lemma {:induction false} OtherIsFirst(members: seq<Row>, actor: UserId) returns (i: int)
    ensures Other(members, actor).Some? ==>
              FirstOther(members, actor, i) && Other(members, actor) == Some(members[i].userId)
    ensures Other(members, actor).None? ==> forall j :: !FirstOther(members, actor, j)
  {
    i := 0;
    if members != [] && (members[0].userId == actor || members[0].leftAt.Some?) {
      var k := OtherIsFirst(members[1..], actor);
      i := k + 1;
      assert forall j :: FirstOther(members, actor, j) ==> FirstOther(members[1..], actor, j - 1);
    }
  }

  /** Whom the flags are about and which way round they are: a private chat's first other active member, blocked by the
      actor, or having blocked the actor; every other conversation has neither. */
  lemma FlagsOutcome(c: Conversation, actor: UserId, blocks: seq<Block>)
    ensures var flags := FlagsFor(c, actor, blocks);
            && (flags.blockedByMe <==>
                  c.isPrivate && exists i :: FirstOther(c.members, actor, i) &&
                                             Block(actor, c.members[i].userId) in blocks)
            && (flags.blockedMe <==>
                  c.isPrivate && exists i :: FirstOther(c.members, actor, i) &&
                                             Block(c.members[i].userId, actor) in blocks)
  {
    var k := OtherIsFirst(c.members, actor);
    assert forall i, j :: FirstOther(c.members, actor, i) && FirstOther(c.members, actor, j) ==> i == j;
  }

  function PeersOf(conversations: seq<Conversation>, actor: UserId): seq<Peer> {
    if conversations == [] then []
    else
      PeersOf(conversations[..|conversations| - 1], actor) +
      match PeerOf(conversations[|conversations| - 1], actor)
      case None => []
      case Some(other) => [Peer(conversations[|conversations| - 1].id, other)]
  }

  lemma {:induction false} PeersAreTheirs(conversations: seq<Conversation>, actor: UserId, p: Peer)
    ensures p in PeersOf(conversations, actor) <==>
            exists c :: c in conversations && c.id == p.conversationId && PeerOf(c, actor) == Some(p.otherUserId)
  {
    if conversations != [] {
      var init, last := conversations[..|conversations| - 1], conversations[|conversations| - 1];
      assert conversations == init + [last];
      PeersAreTheirs(init, actor, p);
    }
  }

  /** One peer entry per conversation id, and only for listed conversations. */
  lemma PeersAreDistinct(conversations: seq<Conversation>, actor: UserId)
    requires ById(conversations)
    ensures var peers := PeersOf(conversations, actor);
            && (forall p, q :: p in peers && q in peers && p.conversationId == q.conversationId ==> p == q)
            && (forall p :: p in peers ==> p.otherUserId != actor)
            && (forall p :: p in peers ==> exists c :: c in conversations && c.id == p.conversationId)
  {
    var peers := PeersOf(conversations, actor);
    forall p | p in peers
      ensures exists c :: c in conversations && c.id == p.conversationId && PeerOf(c, actor) == Some(p.otherUserId)
    {
      PeersAreTheirs(conversations, actor, p);
    }
  }

  /** The rows of the query: blocks by the actor against a peer, or by a peer against the actor. */
  function Relevant(blocks: seq<Block>, actor: UserId, peerIds: set<UserId>): (r: seq<Block>)
    ensures forall b :: b in r <==> b in blocks && ((b.blockerId == actor && b.blockedId in peerIds) ||
                                                    (b.blockerId in peerIds && b.blockedId == actor))
  {
    Filter(blocks, (b: Block) => (b.blockerId == actor && b.blockedId in peerIds) ||
                                 (b.blockerId in peerIds && b.blockedId == actor))
  }

  /** Rows of one id are the same row. */
  ghost predicate ById(conversations: seq<Conversation>) {
    forall c, d :: c in conversations && d in conversations && c.id == d.id ==> c == d
  }

  /** `blockFlagsForConversations`: for any list of conversations and any block table, every conversation gets
      the flags the single computation gives it. */
  method FlagsForAll(conversations: seq<Conversation>, actor: UserId, blocks: seq<Block>)
    returns (flags: map<ConvId, Flags>)
    requires ById(conversations)
    ensures forall id :: id in flags <==> exists c :: c in conversations && c.id == id
    ensures forall c :: c in conversations ==> flags[c.id] == FlagsFor(c, actor, blocks)
  {
    var peers := PeersOf(conversations, actor);
    flags := NoFlags(conversations);
    if |peers| == 0 {
      NoPeersNoFlags(conversations, actor, blocks);
      return;
    }
    PeersAreDistinct(conversations, actor);
    var blockedByMe, blockedMe := LookUp(peers, actor, blocks);
    flags := ApplyPeers(flags, peers, blockedByMe, blockedMe);
    forall c | c in conversations ensures flags[c.id] == FlagsFor(c, actor, blocks) {
      FlagsAgree(conversations, actor, peers, c);
      if PeerOf(c, actor).Some? {
        assert Peer(c.id, PeerOf(c, actor).value) in peers;
      }
    }
  }

  /** The first loop: no flags for anybody. */
  method NoFlags(conversations: seq<Conversation>) returns (flags: map<ConvId, Flags>)
    ensures forall id :: id in flags <==> exists c :: c in conversations && c.id == id
    ensures forall id :: id in flags ==> flags[id] == NO_FLAGS
  {
    flags := map[];
    for i := 0 to |conversations|
      invariant forall j :: 0 <= j < i ==> conversations[j].id in flags
      invariant forall id :: id in flags ==> flags[id] == NO_FLAGS && exists c :: c in conversations && c.id == id
    {
      flags := flags[conversations[i].id := NO_FLAGS];
    }
  }

  /** The one query and its two sets: for every peer they answer as the two separate look-ups would. */
  method LookUp(peers: seq<Peer>, actor: UserId, blocks: seq<Block>)
    returns (blockedByMe: set<UserId>, blockedMe: set<UserId>)
    requires forall p :: p in peers ==> p.otherUserId != actor
    ensures forall p :: p in peers ==> (p.otherUserId in blockedByMe <==> Block(actor, p.otherUserId) in blocks)
    ensures forall p :: p in peers ==> (p.otherUserId in blockedMe <==> Block(p.otherUserId, actor) in blocks)
  {
    var peerIds := set p | p in peers :: p.otherUserId;
    var relevant := Relevant(blocks, actor, peerIds);
    blockedByMe := set b | b in relevant && b.blockerId == actor :: b.blockedId;
    blockedMe := set b | b in relevant && b.blockedId == actor :: b.blockerId;
    forall p | p in peers
      ensures Block(actor, p.otherUserId) in blocks ==> p.otherUserId in blockedByMe
      ensures Block(p.otherUserId, actor) in blocks ==> p.otherUserId in blockedMe
    {
      assert p.otherUserId in peerIds;
      var mine, theirs := Block(actor, p.otherUserId), Block(p.otherUserId, actor);
      assert mine in blocks ==> mine in relevant;
      assert theirs in blocks ==> theirs in relevant;
    }
  }

  /** The last loop: the flags of every conversation with a peer are overwritten. */
  method ApplyPeers(start: map<ConvId, Flags>, peers: seq<Peer>, blockedByMe: set<UserId>, blockedMe: set<UserId>)
    returns (flags: map<ConvId, Flags>)
    requires forall p, q :: p in peers && q in peers && p.conversationId == q.conversationId ==> p == q
    requires forall p :: p in peers ==> p.conversationId in start
    ensures flags.Keys == start.Keys
    ensures forall p :: p in peers ==>
              flags[p.conversationId] == Flags(p.otherUserId in blockedByMe, p.otherUserId in blockedMe)
    ensures forall id :: id in start && (forall p :: p in peers ==> p.conversationId != id) ==> flags[id] == start[id]
  {
    flags := start;
    for i := 0 to |peers|
      invariant flags.Keys == start.Keys
      invariant forall j :: 0 <= j < i ==>
                  flags[peers[j].conversationId] ==
                  Flags(peers[j].otherUserId in blockedByMe, peers[j].otherUserId in blockedMe)
      invariant forall id :: id in start && (forall p :: p in peers ==> p.conversationId != id) ==>
                               flags[id] == start[id]
    {
      var p := peers[i];
      flags := flags[p.conversationId := Flags(p.otherUserId in blockedByMe, p.otherUserId in blockedMe)];
    }
  }

  lemma NoPeersNoFlags(conversations: seq<Conversation>, actor: UserId, blocks: seq<Block>)
    requires PeersOf(conversations, actor) == []
    ensures forall c :: c in conversations ==> FlagsFor(c, actor, blocks) == NO_FLAGS
  {
    forall c | c in conversations ensures PeerOf(c, actor).None? {
      if PeerOf(c, actor).Some? {
        PeersAreTheirs(conversations, actor, Peer(c.id, PeerOf(c, actor).value));
      }
    }
  }

  /** A conversation occurs among the peers exactly when it has one. */
  lemma FlagsAgree(conversations: seq<Conversation>, actor: UserId, peers: seq<Peer>, c: Conversation)
    requires ById(conversations)
    requires c in conversations && peers == PeersOf(conversations, actor)
    ensures PeerOf(c, actor).Some? ==> Peer(c.id, PeerOf(c, actor).value) in peers
    ensures PeerOf(c, actor).None? ==> forall p :: p in peers ==> p.conversationId != c.id
  {
    if PeerOf(c, actor).Some? {
      PeersAreTheirs(conversations, actor, Peer(c.id, PeerOf(c, actor).value));
    } else {
      forall p | p in peers ensures p.conversationId != c.id {
        PeersAreTheirs(conversations, actor, p);
      }
    }
  }
}
