/**
 The fallback of src/protocol/anytls/inbound.rs: a client that fails authentication is
 served as plain HTTP, and the bytes inspected for authentication are put back first.
 */
module AnytlsFallback {
  import opened Bytes

  const PASSWORD_HASH_LEN: nat := 32

  datatype User = User(name: string, passwordHash: seq<byte>)

  datatype Hello = Authenticated(name: string) | Rejected(presented: seq<byte>)

  predicate FirstWith(users: seq<User>, presented: seq<byte>, i: int) {
    0 <= i < |users| && users[i].passwordHash == presented && forall j :: 0 <= j < i ==> users[j].passwordHash != presented
  }

  function FindUser(users: seq<User>, presented: seq<byte>): (r: Option<string>)
    ensures r.None? <==> forall i :: 0 <= i < |users| ==> users[i].passwordHash != presented
    ensures forall i :: FirstWith(users, presented, i) ==> r == Some(users[i].name)
  {
    assert forall i :: 0 < i < |users| ==> users[i] == users[1..][i - 1];
    assert users != [] && users[0].passwordHash != presented ==>
             forall i :: FirstWith(users, presented, i) ==> i > 0 && FirstWith(users[1..], presented, i - 1);
    if users == [] then None
    else if users[0].passwordHash == presented then Some(users[0].name)
    else FindUser(users[1..], presented)
  }

  /** `read_client_hello_or_fallback`: the verdict and the bytes left unread, or an error if the stream ends early. */
  function ReadHello(stream: seq<byte>, users: seq<User>): (r: Result<(Hello, seq<byte>)>) {
    if |stream| < PASSWORD_HASH_LEN then Err
    else
      var presented := stream[..PASSWORD_HASH_LEN];
      var rest := stream[PASSWORD_HASH_LEN..];
      match FindUser(users, presented)
      case None => Ok((Rejected(presented), rest))
      case Some(name) =>
        if |rest| < 2 then Err
        else
          var padding: nat := U16(rest[0], rest[1]);
          if |rest| < 2 + padding then Err else Ok((Authenticated(name), rest[2 + padding..]))
  }

  /** What a client sends first: its password's hash, and padding of a length that is told. */
  function ClientHello(hash: seq<byte>, padding: seq<byte>): (r: seq<byte>)
    requires |padding| <= 0xFFFF
  {
    hash + Be16(|padding|) + padding
  }

  /** A known client is recognised whatever its padding, which is skipped to its last byte and no further. */
  lemma HelloRoundTrip(hash: seq<byte>, padding: seq<byte>, rest: seq<byte>, users: seq<User>)
    requires |hash| == 32 && |padding| <= 0xFFFF && FindUser(users, hash).Some?
    ensures ReadHello(ClientHello(hash, padding) + rest, users) == Ok((Authenticated(FindUser(users, hash).value), rest))
  {
    Be16RoundTrip(|padding|);
    var stream := ClientHello(hash, padding) + rest;
    assert stream[..32] == hash && stream[32..] == Be16(|padding|) + padding + rest;
    assert stream[32..][2 + |padding|..] == rest;
  }

  lemma HelloParts(stream: seq<byte>, len: nat)
    requires |stream| >= 34 + len && len == U16(stream[32], stream[33])
    ensures len <= 0xFFFF && stream == ClientHello(stream[..32], stream[34..34 + len]) + stream[34 + len..]
  {
    U16RoundTrip(stream[32], stream[33]);
    hide U16, Be16;
    assert stream[32..34] == Be16(len);
    assert stream == stream[..32] + stream[32..34] + stream[34..34 + len] + stream[34 + len..];
  }

  /** Only a whole hello of a known client authenticates; only 32 bytes that no client has are rejected. */
  lemma HelloExactlyWhen(stream: seq<byte>, users: seq<User>)
    ensures var r := ReadHello(stream, users);
            && (r.Ok? && r.value.0.Authenticated? ==>
                  |stream| >= 34 &&
                  var len: nat := U16(stream[32], stream[33]);
                  && |stream| >= 34 + len && FindUser(users, stream[..32]) == Some(r.value.0.name)
                  && stream == ClientHello(stream[..32], stream[34..34 + len]) + r.value.1)
            && (r.Ok? && r.value.0.Rejected? <==> |stream| >= 32 && FindUser(users, stream[..32]).None?)
            && (r.Ok? && r.value.0.Rejected? ==> |r.value.0.presented| == 32 && stream == r.value.0.presented + r.value.1)
  {
    hide FindUser, U16, Be16, ClientHello;
    var r := ReadHello(stream, users);
    if r.Ok? && r.value.0.Authenticated? {
      var len: nat := U16(stream[32], stream[33]);
      assert stream[32..][0] == stream[32] && stream[32..][1] == stream[33];
      assert stream[32..][2 + len..] == stream[34 + len..];
      HelloParts(stream, len);
    } else if |stream| >= 32 {
      TakeDrop(stream, 32);
    }
  }

  /** A hello cut short is an error. */
  lemma HelloCutShort(hash: seq<byte>, padding: seq<byte>, split: nat, users: seq<User>)
    requires |hash| == 32 && |padding| <= 0xFFFF && FindUser(users, hash).Some? && split < 34 + |padding|
    ensures ReadHello(ClientHello(hash, padding)[..split], users).Err?
  {
    Be16RoundTrip(|padding|);
    var all := ClientHello(hash, padding);
    if split >= 32 {
      assert all[..split][..32] == hash;
      assert split >= 34 ==> all[..split][32] == Be16(|padding|)[0] && all[..split][33] == Be16(|padding|)[1];
    }
  }

  class PrefixedIo {
    const prefix: seq<byte>
    var position: nat
    /** What the connection will still deliver. */
    var inner: seq<byte>

    ghost predicate Valid()
      reads this
    {
      position <= |prefix|
    }

    ghost function Ahead(): (r: seq<byte>)
      requires Valid()
      reads this
    {
      prefix[position..] + inner
    }

    constructor (prefix: seq<byte>, inner: seq<byte>)
      ensures Valid() && Ahead() == prefix + inner
    {
      this.prefix, this.inner, position := prefix, inner, 0;
    }

    /** One read into a buffer of `room` bytes; the connection delivers at most `offer` bytes at a time. */
    method PollRead(room: nat, offer: nat) returns (bytes: seq<byte>)
      requires Valid()
      modifies this`position, this`inner
      ensures Valid() && |bytes| <= room
      ensures bytes + Ahead() == old(Ahead())
      ensures room > 0 && offer > 0 && old(Ahead()) != [] ==> bytes != []
    {
      if position < |prefix| {
        var len := if room < |prefix| - position then room else |prefix| - position;
        bytes := prefix[position..position + len];
        assert prefix[position..] == bytes + prefix[position + len..];
        position := position + len;
      } else {
        var most := if room < offer then room else offer;
        var len := if most < |inner| then most else |inner|;
        bytes := inner[..len];
        assert inner == inner[..len] + inner[len..];
        inner := inner[len..];
      }
    }
  }

  /**
   Fallback loses nothing: after a rejected hello, whatever the sizes of the reads, the bytes read
   are the client's stream from its first byte, and as long as something is left every read gets some.
   */
  method ServeFallback(stream: seq<byte>, users: seq<User>, rooms: seq<nat>, offers: seq<nat>) returns (read: seq<byte>)
    requires ReadHello(stream, users).Ok? && ReadHello(stream, users).value.0.Rejected?
    requires |rooms| == |offers|
    ensures read <= stream
    ensures (forall i :: 0 <= i < |rooms| ==> rooms[i] > 0 && offers[i] > 0) ==> read == stream || |read| >= |rooms|
  {
    var (hello, rest) := ReadHello(stream, users).value;
    var io := new PrefixedIo(hello.presented, rest);
    read := [];
    for i := 0 to |rooms|
      invariant io.Valid() && read + io.Ahead() == stream
      invariant (forall j :: 0 <= j < i ==> rooms[j] > 0 && offers[j] > 0) ==> io.Ahead() == [] || |read| >= i
    {
      var bytes := io.PollRead(rooms[i], offers[i]);
      Associate(read, bytes, io.Ahead());
      read := read + bytes;
    }
  }
}
