/** LAN discovery (src/net/discovery.h, src/net/discovery.cpp): the broadcast packet and the server table. */
module Discoveries {
  import opened Octets

  const MAGIC: uint32 := 0x534D_4F55
  const PACKET_SIZE := 256

  datatype DiscoveredServer = DiscoveredServer(name: octets, host: string, port: uint16)

  /** What one datagram announces. */
  datatype Announcement = Announcement(name: octets, port: uint16)

  datatype Datagram = Datagram(host: string, data: octets)

  function AnnouncedLength(name: octets): uint8 {
    Min(|name|, 248)
  }

  function EncodeAnnouncement(name: octets, port: uint16): octets {
    PutU32(MAGIC) + PutU16(port) + [AnnouncedLength(name)] + name[..AnnouncedLength(name)]
  }

  function DecodeAnnouncement(data: octets): Option<Announcement> {
    if |data| < 7 || GetU32(data, 0) != MAGIC || |data| < 7 + data[6] as int then None
    else Some(Announcement(data[7..7 + data[6] as int], GetU16(data, 4)))
  }

  /** The loop of `broadcast_loop` sends the first `size` bytes of this buffer over and over. */
  method BuildPacket(name: octets, port: uint16) returns (packet: array<uint8>, size: nat)
    ensures packet.Length == PACKET_SIZE && size <= PACKET_SIZE
    ensures packet[..size] == EncodeAnnouncement(name, port)
  {
    packet := new uint8[PACKET_SIZE];
    WriteU32(packet, 0, MAGIC);
    assert packet[..4] == PutU32(MAGIC);
    WriteU16(packet, 4, port);
    assert packet[..6] == PutU32(MAGIC) + PutU16(port);
    var nameLength := AnnouncedLength(name);
    packet[6] := nameLength;
    assert packet[..7] == PutU32(MAGIC) + PutU16(port) + [nameLength];
    CopyBytes(packet, 7, name[..nameLength]);
    size := 7 + nameLength;
  }

  /** A listener gets the port and the name cut to 248 bytes, whatever follows the packet. */
  lemma AnnouncementRoundTrip(name: octets, port: uint16, junk: octets)
    ensures DecodeAnnouncement(EncodeAnnouncement(name, port) + junk)
         == Some(Announcement(if |name| > 248 then name[..248] else name, port))
    ensures |EncodeAnnouncement(name, port)| <= PACKET_SIZE
  {
    var n := AnnouncedLength(name);
    var e := EncodeAnnouncement(name, port) + junk;
    var tail := [n] + name[..n] + junk;
    GetPutU32([], MAGIC, PutU16(port) + tail);
    assert e == [] + PutU32(MAGIC) + (PutU16(port) + tail);
    GetPutU16(PutU32(MAGIC), port, tail);
    assert e == PutU32(MAGIC) + PutU16(port) + tail;
    assert e[6] == n && e[7..7 + n] == name[..n];
    assert name[..|name|] == name;
  }

  /** The packet, byte for byte: the magic number, the port, the length of the name, the name. */
  lemma PacketBytes()
    ensures EncodeAnnouncement([0x61, 0x62], 0x60E0) == [0x53, 0x4D, 0x4F, 0x55, 0x60, 0xE0, 2, 0x61, 0x62]
  {
  }

  /** Exactly the datagrams that begin with a whole packet announce something, and what the packet says. */
  lemma AnnouncesExactly(data: octets)
    ensures DecodeAnnouncement(data).Some?
       <==> exists name, port: uint16, junk :: |name| <= 255 && data == RawPacket(name, port) + junk
    ensures DecodeAnnouncement(data).Some? ==>
      var a := DecodeAnnouncement(data).value; RawPacket(a.name, a.port) <= data && |a.name| <= 255
  {
    hide DecodeAnnouncement, RawPacket;
    if DecodeAnnouncement(data).Some? {
      AnnouncedPacket(data);
      var a := DecodeAnnouncement(data).value;
      assert data == RawPacket(a.name, a.port) + data[7 + |a.name|..];
    }
    forall name, port: uint16, junk | |name| <= 255 && data == RawPacket(name, port) + junk
      ensures DecodeAnnouncement(data).Some?
    {
      PacketAnnounces(name, port, junk);
    }
  }

  lemma AnnouncedPacket(data: octets)
    requires DecodeAnnouncement(data).Some?
    ensures var a := DecodeAnnouncement(data).value;
            |a.name| <= 255 && 7 + |a.name| <= |data| && data[..7 + |a.name|] == RawPacket(a.name, a.port)
  {
    hide GetU16, GetU32, PutU16, PutU32;
    PutGetU32(data, 0);
    PutGetU16(data, 4);
    var n := |DecodeAnnouncement(data).value.name|;
    assert data[..7 + n] == data[0..4] + data[4..6] + [data[6]] + data[7..7 + n];
  }

  lemma PacketAnnounces(name: octets, port: uint16, junk: octets)
    requires |name| <= 255
    ensures DecodeAnnouncement(RawPacket(name, port) + junk).Some?
  {
    hide GetU16, GetU32, PutU16, PutU32;
    var tail := PutU16(port) + [|name|] + name + junk;
    GetPutU32([], MAGIC, tail);
    assert RawPacket(name, port) + junk == [] + PutU32(MAGIC) + tail;
  }

  /** A packet whose name may be longer than a server announces. */
  function RawPacket(name: octets, port: uint16): octets
    requires |name| <= 255
  {
    PutU32(0x534D_4F55) + PutU16(port) + [|name|] + name
  }

  // ---------- The table ----------

  /** Replace the first entry of that host in place, or append. */
  function Noted(table: seq<DiscoveredServer>, server: DiscoveredServer): seq<DiscoveredServer> {
    if table == [] then [server]
    else if table[0].host == server.host then [server] + table[1..]
    else [table[0]] + Noted(table[1..], server)
  }

  function Heard(table: seq<DiscoveredServer>, d: Datagram): seq<DiscoveredServer> {
    match DecodeAnnouncement(d.data)
    case None => table
    case Some(a) => Noted(table, DiscoveredServer(a.name, d.host, a.port))
  }

  class Discovery {
    var servers: seq<DiscoveredServer>

    constructor ()
      ensures servers == []
    {
      servers := [];
    }

    /** One turn of `listen_loop`; `recvfrom` returned `d`. */
    method Listen(d: Datagram)
      modifies this
      ensures servers == Heard(old(servers), d)
    {
      if |d.data| < 7 {
        return;
      }
      if GetU32(d.data, 0) != MAGIC {
        return;
      }
      var port := GetU16(d.data, 4);
      var nameLength := d.data[6] as int;
      if |d.data| < 7 + nameLength {
        return;
      }
      Note(DiscoveredServer(d.data[7..7 + nameLength], d.host, port));
    }

    /** The deduplication block of `listen_loop`. */
    method Note(server: DiscoveredServer)
      modifies this
      ensures servers == Noted(old(servers), server)
    {
      for i := 0 to |servers|
        invariant servers == old(servers)
        invariant Noted(servers, server) == servers[..i] + Noted(servers[i..], server)
      {
        if servers[i].host == server.host {
          servers := servers[i := server];
          return;
        }
      }
      servers := servers + [server];
    }
  }

  function HeardAll(ds: seq<Datagram>): seq<DiscoveredServer> {
    if ds == [] then [] else Heard(HeardAll(ds[..|ds| - 1]), ds[|ds| - 1])
  }

  /** Hosts that sent a valid packet, each once, in the order first heard. */
  function FirstSeen(ds: seq<Datagram>): seq<string> {
    if ds == [] then []
    else
      var before, d := FirstSeen(ds[..|ds| - 1]), ds[|ds| - 1];
      if DecodeAnnouncement(d.data).None? || d.host in before then before else before + [d.host]
  }

  /** The last valid announcement of a host. */
  function LastHeard(ds: seq<Datagram>, host: string): Option<Announcement> {
    if ds == [] then None
    else
      var d := ds[|ds| - 1];
      if d.host == host && DecodeAnnouncement(d.data).Some? then DecodeAnnouncement(d.data)
      else LastHeard(ds[..|ds| - 1], host)
  }

  function Hosts(table: seq<DiscoveredServer>): seq<string> {
    if table == [] then [] else [table[0].host] + Hosts(table[1..])
  }

  predicate NoRepeats(hosts: seq<string>) {
    hosts == [] || (hosts[0] !in hosts[1..] && NoRepeats(hosts[1..]))
  }

  lemma {:induction false} NoRepeatsSnoc(hosts: seq<string>, host: string)
    requires NoRepeats(hosts) && host !in hosts
    ensures NoRepeats(hosts + [host])
  {
    if hosts != [] {
      NoRepeatsSnoc(hosts[1..], host);
      assert (hosts + [host])[1..] == hosts[1..] + [host];
    }
  }

  lemma {:induction false} HostOfEntry(table: seq<DiscoveredServer>, s: DiscoveredServer)
    requires s in table
    ensures s.host in Hosts(table)
  {
    if s != table[0] {
      HostOfEntry(table[1..], s);
    }
  }

  /** Noting a host moves nobody: its own entry is replaced where it stands, or goes to the end. */
  lemma {:induction false} NotedHosts(table: seq<DiscoveredServer>, server: DiscoveredServer)
    ensures Hosts(Noted(table, server))
         == if server.host in Hosts(table) then Hosts(table) else Hosts(table) + [server.host]
  {
    if table != [] && table[0].host != server.host {
      NotedHosts(table[1..], server);
    }
  }

  lemma {:induction false} NotedEntries(table: seq<DiscoveredServer>, server: DiscoveredServer)
    requires NoRepeats(Hosts(table))
    ensures forall s :: s in Noted(table, server) <==> s == server || (s in table && s.host != server.host)
  {
    if table != [] {
      if table[0].host == server.host {
        forall s | s in table[1..] ensures s.host != server.host {
          HostOfEntry(table[1..], s);
        }
      } else {
        NotedEntries(table[1..], server);
      }
    }
  }

  /**
    After any datagrams the table lists exactly the hosts that sent a valid packet, each once, in the
    order first heard, each with its last valid announcement.
  */
  lemma {:induction false} TableIsFirstSeenLastHeard(ds: seq<Datagram>)
    ensures var table := HeardAll(ds);
            && Hosts(table) == FirstSeen(ds) && NoRepeats(Hosts(table))
            && (forall s <- table :: LastHeard(ds, s.host) == Some(Announcement(s.name, s.port)))
            && (forall host :: LastHeard(ds, host).Some? <==> host in Hosts(table))
  {
    if ds != [] {
      var before, d := ds[..|ds| - 1], ds[|ds| - 1];
      TableIsFirstSeenLastHeard(before);
      var table := HeardAll(before);
      match DecodeAnnouncement(d.data)
      case None =>
      case Some(a) =>
        hide DecodeAnnouncement;
        var server := DiscoveredServer(a.name, d.host, a.port);
        NotedEntries(table, server);
        NotedHosts(table, server);
        if d.host !in Hosts(table) {
          NoRepeatsSnoc(Hosts(table), d.host);
        }
    }
  }
}
