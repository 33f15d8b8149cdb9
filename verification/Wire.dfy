/** Who may send what: the authentication of a connection and the dispatch of its command. */
module Wire {
  import opened Prelude
  import opened Pki
  import opened Directory
  import opened Interleavings

  const HASH_SIZE: nat := 32

  /** The peers an authority knows. */
  datatype Book = Book(roster: Roster, replicas: set<Id>, authorities: set<Id>, linkKeys: map<Id, Bytes>)

  datatype Credentials = Credentials(additional: Bytes, publicKey: Option<Bytes>)

  datatype Role = Client | Mix | Replica | Authority

  datatype Command = GetConsensus | PostDescriptor | PostReplicaDescriptor | Send(kind: Kind) | OtherCommand

  datatype Handler = ServeConsensus | AcceptDescriptor | AcceptReplica | AcceptUpload(kind: Kind) | NoReply
    | Wtf // the panic for an authenticator without a role

  predicate IsNode(book: Book, id: Id) {
    id in book.roster.mixes || id in book.roster.gateways || id in book.roster.services
  }

  /** The role of a peer, if it is admitted: nodes come before authorities, and these before replicas. */
  function RoleOf(book: Book, creds: Credentials): Option<Role> {
    var id := FromBytes(creds.additional);
    if creds.additional == [] then Some(Client)
    else if |creds.additional| != HASH_SIZE then None
    else if IsNode(book, id) then Some(Mix)
    else if id in book.authorities then
      if id in book.linkKeys && creds.publicKey == Some(book.linkKeys[id]) then Some(Authority) else None
    else if id in book.replicas then Some(Replica)
    else None
  }

  /** Which handler a command of a peer in this role reaches. */
  function HandlerOf(role: Role, cmd: Command): Handler {
    match (role, cmd)
    case (Client, GetConsensus) => ServeConsensus
    case (Mix, GetConsensus) => ServeConsensus
    case (Mix, PostDescriptor) => Handler.AcceptDescriptor
    case (Replica, PostReplicaDescriptor) => AcceptReplica
    case (Authority, GetConsensus) => ServeConsensus
    case (Authority, Send(kind)) => AcceptUpload(kind)
    case _ => NoReply
  }

  class Authenticator {
    const book: Book
    var isClient: bool
    var isMix: bool
    var isReplica: bool
    var isAuthority: bool
    var peerIdentityKeyHash: Bytes

    predicate Flags(role: Option<Role>)
      reads this
    {
      && (isClient <==> role == Some(Client)) && (isMix <==> role == Some(Mix))
      && (isReplica <==> role == Some(Replica)) && (isAuthority <==> role == Some(Authority))
    }

    constructor (book: Book)
      ensures this.book == book && Flags(None)
    {
      this.book := book;
      isClient, isMix, isReplica, isAuthority, peerIdentityKeyHash := false, false, false, false, [];
    }

    /** Admits a peer and sets exactly the flag of its role. */
    method IsPeerValid(creds: Credentials) returns (ok: bool)
      requires Flags(None)
      modifies this
      ensures ok <==> RoleOf(book, creds).Some?
      ensures Flags(RoleOf(book, creds))
      ensures RoleOf(book, creds) == Some(Mix) ==> peerIdentityKeyHash == creds.additional
    {
      if |creds.additional| == 0 {
        isClient := true;
        return true;
      } else if |creds.additional| != HASH_SIZE {
        return false;
      }
      peerIdentityKeyHash := creds.additional;
      var pk := FromBytes(creds.additional);
      var isNode := IsNode(book, pk);
      if isNode {
        isMix := true;
        return true;
      } else if pk in book.authorities {
        if pk !in book.linkKeys { return false; }
        if creds.publicKey.None? { return false; }
        if book.linkKeys[pk] != creds.publicKey.value { return false; }
        isAuthority := true;
        return true;
      } else if pk in book.replicas {
        isReplica := true;
        return true;
      }
      return false;
    }

    /** The dispatch of a connection after its handshake. */
    method OnConn(ghost role: Role, cmd: Command) returns (h: Handler)
      requires Flags(Some(role))
      ensures h == HandlerOf(role, cmd) && h != Wtf
    {
      if isClient {
        h := if cmd.GetConsensus? then ServeConsensus else NoReply;
      } else if isMix {
        h := match cmd
          case GetConsensus => ServeConsensus
          case PostDescriptor => Handler.AcceptDescriptor
          case _ => NoReply;
      } else if isReplica {
        h := if cmd.PostReplicaDescriptor? then AcceptReplica else NoReply;
      } else if isAuthority {
        h := match cmd case GetConsensus => ServeConsensus case Send(kind) => AcceptUpload(kind) case _ => NoReply;
      } else {
        h := Wtf;
      }
    }
  }

  /** Exactly who reaches the upload handlers: an authority with the link key on record that is not a node too. */
  lemma OnlyAuthoritiesVote(book: Book, creds: Credentials, kind: Kind)
    ensures var role := RoleOf(book, creds);
            var id := FromBytes(creds.additional);
            role.Some? && HandlerOf(role.value, Send(kind)) == AcceptUpload(kind) <==>
            && |creds.additional| == HASH_SIZE && id in book.authorities && !IsNode(book, id)
            && id in book.linkKeys && creds.publicKey == Some(book.linkKeys[id])
  {
  }

  /** A descriptor gets into the tables only over a connection of its own node: whatever an admitted peer posts, entries
      under other identities stay as they were. */
  lemma OnlyTheNodePosts(net: Network, site: Site, s: State, book: Book, creds: Credentials, up: Upload, now: nat,
                         e: nat, id: Id)
    requires book.roster == site.roster && RoleOf(book, creds).Some?
    requires HandlerOf(RoleOf(book, creds).value, PostDescriptor) == Handler.AcceptDescriptor
    requires id != FromBytes(creds.additional)
    ensures var s' := OnPostDescriptor(net, site, s, up, FromBytes(creds.additional), now).0;
            && IsNode(book, FromBytes(creds.additional))
            && (id in Table(s', e) <==> id in Table(s, e))
            && (id in Table(s, e) ==> Table(s', e)[id] == Table(s, e)[id])
  {
  }

  /** Exactly who reaches which handler: the consensus is served to clients, nodes and authorities, descriptors are
      taken from nodes and replica descriptors from replicas, and whoever is a node is treated as nothing else. */
  lemma ReachesExactly(book: Book, creds: Credentials, cmd: Command)
    ensures var (role, id) := (RoleOf(book, creds), FromBytes(creds.additional));
            var hashed := |creds.additional| == 32;
            var node := hashed && IsNode(book, id);
            var authority := hashed && !IsNode(book, id) && id in book.authorities;
            var linked := authority && id in book.linkKeys && creds.publicKey == Some(book.linkKeys[id]);
            var replica := hashed && !IsNode(book, id) && id !in book.authorities && id in book.replicas;
            && (role.Some? <==> creds.additional == [] || node || linked || replica)
            && (role.Some? ==>
                  var h := HandlerOf(role.value, cmd);
                  && (h == ServeConsensus <==> cmd.GetConsensus? && !replica)
                  && (h == Handler.AcceptDescriptor <==> cmd.PostDescriptor? && node)
                  && (h == AcceptReplica <==> cmd.PostReplicaDescriptor? && replica)
                  && (forall kind :: h == AcceptUpload(kind) <==> cmd == Send(kind) && linked)
                  && h != Wtf)
  {
  }
}
