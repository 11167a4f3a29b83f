/** Announces folded into the tracker's nested maps, and the bencoded response. */
module Tracker {
  import opened Decimal
  import opened Ipv4
  import opened Bencode
  import Lex

  type InfoHash = string
  type PeerId = string
  type Uint32 = n: nat | n < U32

  datatype Event = Started | Stopped | Completed

  datatype Announce = Announce(
    infoHash: InfoHash, peerId: PeerId, ip: Uint32, port: nat,
    uploaded: nat, downloaded: nat, left: nat, event: Event, numwant: int)

  datatype AnnounceRequest = AnnounceRequest(serial: nat, announce: Announce)
  datatype AnnounceResponse = AnnounceResponse(serial: nat, body: string)

  datatype Peer = Peer(
    peerId: PeerId, ip: Uint32, port: nat, uploaded: nat, downloaded: nat, left: nat, complete: bool)

  type Peers = map<PeerId, Peer>
  type Torrents = map<InfoHash, Peers>

  function PeersOf(t: Torrents, h: InfoHash): Peers {
    if h in t then t[h] else map[]
  }

  function PeerFrom(req: Announce): Peer {
    Peer(req.peerId, req.ip, req.port, req.uploaded, req.downloaded, req.left,
         req.event == Completed || req.left == 0)
  }

  /** An announce touches its own peer of its own torrent, and creates the torrent even when it stops. */
  function Applied(t: Torrents, req: Announce): Torrents {
    var peers := PeersOf(t, req.infoHash);
    t[req.infoHash := if req.event == Stopped then peers - {req.peerId} else peers[req.peerId := PeerFrom(req)]]
  }

  function AppliedAll(log: seq<Announce>): Torrents {
    if log == [] then map[] else Applied(AppliedAll(log[..|log| - 1]), log[|log| - 1])
  }

  predicate About(req: Announce, h: InfoHash, p: PeerId) { req.infoHash == h && req.peerId == p }

  /** Announce `i` is the last of peer `p` of torrent `h`. */
  ghost predicate IsLastAbout(log: seq<Announce>, i: nat, h: InfoHash, p: PeerId) {
    i < |log| && About(log[i], h, p) && forall j :: i < j < |log| ==> !About(log[j], h, p)
  }

  /** A peer is stored exactly as its last announce says, and not at all if that announce stopped or there is none. A
      torrent exists once anything was announced of it. */
  lemma LastAnnounceWins(log: seq<Announce>, h: InfoHash, p: PeerId)
    ensures (forall i :: 0 <= i < |log| ==> !About(log[i], h, p)) ==> p !in PeersOf(AppliedAll(log), h)
    ensures forall i: nat :: IsLastAbout(log, i, h, p) ==>
      if log[i].event == Stopped then p !in PeersOf(AppliedAll(log), h)
      else
        && p in PeersOf(AppliedAll(log), h)
        && var peer := PeersOf(AppliedAll(log), h)[p];
           && peer.peerId == p && peer.ip == log[i].ip && peer.port == log[i].port
           && peer.uploaded == log[i].uploaded && peer.downloaded == log[i].downloaded && peer.left == log[i].left
           && (peer.complete <==> log[i].event == Completed || log[i].left == 0)
    ensures h in AppliedAll(log) <==> exists i :: 0 <= i < |log| && log[i].infoHash == h
  {
    AnnouncedExists(log, h);
    NeverStored(log, h, p);
    forall i: nat | IsLastAbout(log, i, h, p) ensures StoredFrom(AppliedAll(log), log[i], h, p) {
      LastIsStored(log, i, h, p);
    }
  }

  predicate StoredFrom(t: Torrents, last: Announce, h: InfoHash, p: PeerId) {
    if last.event == Stopped then p !in PeersOf(t, h)
    else p in PeersOf(t, h) && PeersOf(t, h)[p] == PeerFrom(last)
  }

  lemma {:induction false} LastIsStored(log: seq<Announce>, i: nat, h: InfoHash, p: PeerId)
    requires IsLastAbout(log, i, h, p)
    ensures StoredFrom(AppliedAll(log), log[i], h, p)
  {
    if i < |log| - 1 {
      var init := log[..|log| - 1];
      assert forall j :: 0 <= j < |init| ==> init[j] == log[j];
      LastIsStored(init, i, h, p);
    }
  }

  lemma {:induction false} NeverStored(log: seq<Announce>, h: InfoHash, p: PeerId)
    ensures (forall i :: 0 <= i < |log| ==> !About(log[i], h, p)) ==> p !in PeersOf(AppliedAll(log), h)
  {
    if log != [] {
      var init := log[..|log| - 1];
      assert forall i :: 0 <= i < |init| ==> init[i] == log[i];
      NeverStored(init, h, p);
    }
  }

  lemma {:induction false} AnnouncedExists(log: seq<Announce>, h: InfoHash)
    ensures h in AppliedAll(log) <==> exists i :: 0 <= i < |log| && log[i].infoHash == h
  {
    if log != [] {
      var init := log[..|log| - 1];
      AnnouncedExists(init, h);
      assert forall i :: 0 <= i < |init| ==> init[i] == log[i];
      assert h in AppliedAll(init) ==> exists i :: 0 <= i < |init| && log[i].infoHash == h;
    }
  }

  /** A stored peer has announced itself, and not stopped since. */
  lemma {:induction false} StoredHasAnnounced(log: seq<Announce>, h: InfoHash, p: PeerId) returns (i: nat)
    requires p in PeersOf(AppliedAll(log), h)
    ensures IsLastAbout(log, i, h, p) && log[i].event != Stopped
  {
    var init, last := log[..|log| - 1], log[|log| - 1];
    if About(last, h, p) {
      i := |log| - 1;
    } else {
      i := StoredHasAnnounced(init, h, p);
    }
  }

  // ----- the response -----

  function Others(ids: seq<PeerId>, own: PeerId): seq<PeerId> {
    if ids == [] then []
    else
      var last := ids[|ids| - 1];
      Others(ids[..|ids| - 1], own) + (if last == own then [] else [last])
  }

  function FirstN<T>(s: seq<T>, numwant: int): seq<T> {
    if 0 <= numwant < |s| then s[..numwant] else s
  }

  /** The peers a response lists: the first `numwant` others in the order of peer ids, or all when it is negative. */
  function Listed(t: Torrents, req: Announce): seq<PeerId> {
    FirstN(Others(Lex.SortedKeys(PeersOf(t, req.infoHash).Keys), req.peerId), req.numwant)
  }

  function PeerValue(peer: Peer): Ben {
    BDict([Member("ip", BStr(FormatIpv4(peer.ip))), Member("port", BInt(peer.port))])
  }

  function PeerValues(peers: Peers, ids: seq<PeerId>): seq<Ben>
    requires forall p :: p in ids ==> p in peers
  {
    seq(|ids|, i requires 0 <= i < |ids| => assert ids[i] in ids; PeerValue(peers[ids[i]]))
  }

  function ResponseWith(values: seq<Ben>): Ben {
    BDict([Member("interval", BInt(100)), Member("peers", BList(values))])
  }

  /** What a response means. */
  function ResponseValue(t: Torrents, req: Announce): Ben {
    ListedFacts(t, req);
    ResponseWith(PeerValues(PeersOf(t, req.infoHash), Listed(t, req)))
  }

  lemma {:induction false} OthersFacts(ids: seq<PeerId>, own: PeerId)
    requires Lex.Sorted(ids)
    ensures Lex.Sorted(Others(ids, own))
    ensures forall p :: p in Others(ids, own) <==> p in ids && p != own
  {
    if ids != [] {
      var init, last := ids[..|ids| - 1], ids[|ids| - 1];
      OthersFacts(init, own);
      assert ids == init + [last];
      forall p | p in Others(init, own) ensures Lex.Less(p, last) {
        var i :| 0 <= i < |init| && init[i] == p;
        assert ids[i] == p;
      }
    }
  }

  /** The listed peers are other peers of the torrent, in order, and a prefix of all the others. */
  lemma ListedFacts(t: Torrents, req: Announce)
    ensures var all := Others(Lex.SortedKeys(PeersOf(t, req.infoHash).Keys), req.peerId);
      && Lex.Sorted(all) && (forall p :: p in all <==> p in PeersOf(t, req.infoHash) && p != req.peerId)
      && Listed(t, req) <= all
      && |Listed(t, req)| == (if 0 <= req.numwant < |all| then req.numwant else |all|)
      && (forall p :: p in Listed(t, req) ==> p in PeersOf(t, req.infoHash) && p != req.peerId)
  {
    OthersFacts(Lex.SortedKeys(PeersOf(t, req.infoHash).Keys), req.peerId);
    var all := Others(Lex.SortedKeys(PeersOf(t, req.infoHash).Keys), req.peerId);
    forall p | p in Listed(t, req) ensures p in all {}
  }

  /** Whether a peer's own announce is applied before or after the response makes no difference to the response. */
  lemma OwnAnnounceDoesNotShow(t: Torrents, req: Announce)
    ensures ResponseValue(Applied(t, req), req) == ResponseValue(t, req)
  {
    var u := Applied(t, req);
    var peers, peers' := PeersOf(t, req.infoHash), PeersOf(u, req.infoHash);
    var all, all' := Others(Lex.SortedKeys(peers.Keys), req.peerId), Others(Lex.SortedKeys(peers'.Keys), req.peerId);
    ListedFacts(t, req);
    ListedFacts(u, req);
    Lex.SortedUnique(all, all');
    SameValues(peers, peers', Listed(t, req));
  }

  lemma SameValues(peers: Peers, peers': Peers, ids: seq<PeerId>)
    requires forall p :: p in ids ==> p in peers && p in peers' && peers[p] == peers'[p]
    ensures PeerValues(peers, ids) == PeerValues(peers', ids)
  {
  }

  lemma {:induction false} OthersPrefix(ids: seq<PeerId>, own: PeerId, i: nat)
    requires i <= |ids|
    ensures Others(ids[..i], own) <= Others(ids, own)
  {
    if i == |ids| {
      assert ids[..i] == ids;
    } else {
      var init := ids[..|ids| - 1];
      assert init[..i] == ids[..i];
      OthersPrefix(init, own, i);
    }
  }

  lemma {:induction false} EncodeItemsSnoc(xs: seq<Ben>, x: Ben)
    ensures EncodeItems(xs + [x]) == EncodeItems(xs) + Encode(x)
  {
    if xs == [] {
      assert EncodeItems([x]) == Encode(x) + "";
      assert xs + [x] == [x];
    } else {
      EncodeItemsSnoc(xs[1..], x);
      Append(xs, x, EncodeItems(xs[1..]), Encode(x));
    }
  }

  lemma Append(xs: seq<Ben>, x: Ben, rest: string, last: string)
    requires xs != [] && rest == EncodeItems(xs[1..]) && EncodeItems(xs[1..] + [x]) == rest + last
    ensures EncodeItems(xs + [x]) == EncodeItems(xs) + last
  {
    var longer := xs + [x];
    assert longer[1..] == xs[1..] + [x];
    assert EncodeItems(longer) == Encode(xs[0]) + (rest + last);
    Concat(Encode(xs[0]), rest, last);
  }

  lemma Concat(a: string, b: string, c: string)
    ensures a + (b + c) == a + b + c
  {
  }

  lemma EncodeTwo(a: Member, b: Member, ka: string, va: string, kb: string, vb: string)
    requires ka == EncodeStr(a.key) && va == Encode(a.value) && kb == EncodeStr(b.key) && vb == Encode(b.value)
    ensures Encode(BDict([a, b])) == "d" + ka + va + kb + vb + "e"
  {
    assert [a, b][1..] == [b] && [b][1..] == [];
    assert EncodeEntries([b]) == kb + vb + "";
    assert EncodeEntries([a, b]) == ka + va + (kb + vb + "");
    PairText(ka, va, kb, vb);
  }

  lemma PairText(ka: string, va: string, kb: string, vb: string)
    ensures "d" + (ka + va + (kb + vb + "")) + "e" == "d" + ka + va + kb + vb + "e"
  {
  }

  lemma Glue(y: string, a: string, b: string, x: string, c: string, d: string)
    ensures y + a + (b + x + c) + d == y + (a + b) + x + (c + d)
  {
  }

  lemma EncodePeer(peer: Peer)
    ensures Encode(PeerValue(peer)) ==
      "d2:ip" + Dec(|FormatIpv4(peer.ip)|) + ":" + FormatIpv4(peer.ip) + "4:porti" + Dec(peer.port) + "ee"
  {
    var ip, port := FormatIpv4(peer.ip), Dec(peer.port);
    var n := Dec(|ip|);
    KeyText();
    EncodeTwo(Member("ip", BStr(ip)), Member("port", BInt(peer.port)),
              "2:ip", n + ":" + ip, "4:port", "i" + port + "e");
    PeerText(n, ip, port);
  }

  /** The keys of the two dictionaries, as strings with their lengths. */
  lemma KeyText()
    ensures EncodeStr("ip") == "2:ip" && EncodeStr("port") == "4:port"
    ensures EncodeStr("interval") == "8:interval" && EncodeStr("peers") == "5:peers"
  {
  }

  lemma PeerText(n: string, ip: string, port: string)
    ensures "d" + "2:ip" + (n + ":" + ip) + "4:port" + ("i" + port + "e") + "e"
         == "d2:ip" + n + ":" + ip + "4:porti" + port + "ee"
  {
    assert "d" + "2:ip" == "d2:ip" && "4:port" + "i" == "4:porti" && "e" + "e" == "ee";
    assert "d2:ip" + (n + ":" + ip) == "d2:ip" + n + ":" + ip;
    Glue("d2:ip" + n + ":" + ip, "4:port", "i", port, "e", "e");
  }

  lemma EncodeResponse(values: seq<Ben>)
    ensures Encode(ResponseWith(values)) == "d8:intervali100e5:peersl" + EncodeItems(values) + "ee"
  {
    var items := EncodeItems(values);
    KeyText();
    IntervalText();
    EncodeTwo(Member("interval", BInt(100)), Member("peers", BList(values)),
              "8:interval", "i100e", "5:peers", "l" + items + "e");
    ResponseText(items);
  }

  lemma IntervalText()
    ensures Encode(BInt(100)) == "i100e"
  {
    assert Dec(10) == "10";
    assert Dec(100) == "100";
  }

  lemma ResponseText(items: string)
    ensures "d" + "8:interval" + "i100e" + "5:peers" + ("l" + items + "e") + "e"
         == "d8:intervali100e5:peersl" + items + "ee"
  {
    var head := "d" + "8:interval" + "i100e";
    Glue(head, "5:peers", "l", items, "e", "e");
    assert head + ("5:peers" + "l") == "d8:intervali100e5:peersl" && "e" + "e" == "ee";
  }

  lemma ResponseIsValid(peers: Peers, ids: seq<PeerId>)
    requires forall p :: p in ids ==> p in peers
    ensures Bencode.Valid(ResponseWith(PeerValues(peers, ids)))
  {
    assert Lex.Less("ip", "port") && Lex.Less("interval", "peers");
    forall x | x in PeerValues(peers, ids) ensures Bencode.Valid(x) {
      var i :| 0 <= i < |ids| && PeerValues(peers, ids)[i] == x;
      assert KeysAscend(x.entries);
    }
  }

  /** The body decodes to interval 100 and, one for each of `ids` in order, the address and the port of that peer. */
  ghost predicate Lists(body: string, peers: Peers, ids: seq<PeerId>) {
    exists items: seq<Ben> ::
      && Decode(body) == Read(BDict([Member("interval", BInt(100)), Member("peers", BList(items))]), "")
      && |items| == |ids|
      && forall i :: 0 <= i < |ids| ==>
           && ids[i] in peers
           && items[i] == BDict([Member("ip", BStr(FormatIpv4(peers[ids[i]].ip))),
                                 Member("port", BInt(peers[ids[i]].port))])
  }

  /** The same, with the address and the port that each peer announced last. */
  ghost predicate ListsAnnounced(body: string, log: seq<Announce>, h: InfoHash, ids: seq<PeerId>) {
    exists items: seq<Ben> ::
      && Decode(body) == Read(BDict([Member("interval", BInt(100)), Member("peers", BList(items))]), "")
      && |items| == |ids|
      && forall i :: 0 <= i < |ids| ==> AnnouncedAs(items[i], log, h, ids[i])
  }

  ghost predicate AnnouncedAs(item: Ben, log: seq<Announce>, h: InfoHash, p: PeerId) {
    exists j: nat :: IsLastAbout(log, j, h, p) && log[j].event != Stopped
      && item == BDict([Member("ip", BStr(FormatIpv4(log[j].ip))), Member("port", BInt(log[j].port))])
  }

  lemma ListedAreAnnounced(body: string, log: seq<Announce>, h: InfoHash, ids: seq<PeerId>)
    requires Lists(body, PeersOf(AppliedAll(log), h), ids)
    ensures ListsAnnounced(body, log, h, ids)
  {
    var peers := PeersOf(AppliedAll(log), h);
    var items: seq<Ben> :|
      && Decode(body) == Read(BDict([Member("interval", BInt(100)), Member("peers", BList(items))]), "")
      && |items| == |ids|
      && forall i :: 0 <= i < |ids| ==>
           && ids[i] in peers
           && items[i] == BDict([Member("ip", BStr(FormatIpv4(peers[ids[i]].ip))),
                                 Member("port", BInt(peers[ids[i]].port))]);
    forall i | 0 <= i < |ids| ensures AnnouncedAs(items[i], log, h, ids[i]) {
      var j := StoredHasAnnounced(log, h, ids[i]);
      LastAnnounceWins(log, h, ids[i]);
    }
  }

  lemma AddPeer(peers: Peers, listed: seq<PeerId>, p: PeerId)
    requires p in peers && forall q :: q in listed ==> q in peers
    ensures EncodeItems(PeerValues(peers, listed + [p]))
         == EncodeItems(PeerValues(peers, listed)) + Encode(PeerValue(peers[p]))
  {
    EncodeItemsSnoc(PeerValues(peers, listed), PeerValue(peers[p]));
    assert PeerValues(peers, listed + [p]) == PeerValues(peers, listed) + [PeerValue(peers[p])];
  }

  lemma ResponseDecodes(peers: Peers, listed: seq<PeerId>, body: string)
    requires forall p :: p in listed ==> p in peers
    requires body == "d8:intervali100e5:peersl" + EncodeItems(PeerValues(peers, listed)) + "ee"
    ensures var response := ResponseWith(PeerValues(peers, listed));
      body == Encode(response) && Decode(body) == Read(response, "") && Lists(body, peers, listed)
  {
    EncodeResponse(PeerValues(peers, listed));
    ResponseIsValid(peers, listed);
    RoundTrip(ResponseWith(PeerValues(peers, listed)), "");
    assert body + "" == body;
    ResponseLists(peers, listed, body);
  }

  lemma ResponseLists(peers: Peers, listed: seq<PeerId>, body: string)
    requires forall p :: p in listed ==> p in peers
    requires Decode(body) == Read(ResponseWith(PeerValues(peers, listed)), "")
    ensures Lists(body, peers, listed)
  {
    var items := PeerValues(peers, listed);
    assert forall i :: 0 <= i < |listed| ==> listed[i] in listed && items[i] == PeerValue(peers[listed[i]]);
  }

  method FormatPeer(peer: Peer) returns (text: string)
    ensures text == Encode(PeerValue(peer))
  {
    var ip := FormatIpv4(peer.ip);
    text := "d2:ip" + Dec(|ip|) + ":" + ip + "4:porti" + Dec(peer.port) + "ee";
    EncodePeer(peer);
  }

  /** The loop of `tracker_success_response` over the peers of a torrent in order. */
  method ListPeers(peers: Peers, ids: seq<PeerId>, own: PeerId, numwant: int)
    returns (items: string)
    requires forall p :: p in ids ==> p in peers
    ensures forall p :: p in FirstN(Others(ids, own), numwant) ==> p in peers
    ensures items == EncodeItems(PeerValues(peers, FirstN(Others(ids, own), numwant)))
  {
    items := "";
    ghost var listed: seq<PeerId> := [];
    var count, i := 0, 0;
    assert Others(ids[..0], own) == [];
    while i < |ids|
      invariant 0 <= i <= |ids| && count == |listed|
      invariant listed == Others(ids[..i], own) && forall p :: p in listed ==> p in peers
      invariant 0 <= numwant ==> count <= numwant
      invariant items == EncodeItems(PeerValues(peers, listed))
    {
      OthersNext(ids, own, i);
      assert ids[i] in ids;
      // the requester is not listed
      if ids[i] == own { i := i + 1; continue; }
      if count == numwant { break; }
      var text := FormatPeer(peers[ids[i]]);
      AddPeer(peers, listed, ids[i]);
      items := items + text;
      listed := listed + [ids[i]];
      count := count + 1;
      i := i + 1;
    }
    OthersPrefix(ids, own, i);
    assert ids[..|ids|] == ids;
    FirstNIs(Others(ids, own), listed, numwant);
  }

  lemma FirstNIs<T>(all: seq<T>, s: seq<T>, numwant: int)
    requires s <= all
    requires |s| == numwant || (s == all && (0 <= numwant ==> |s| <= numwant))
    ensures s == FirstN(all, numwant)
  {
  }

  lemma OthersNext(ids: seq<PeerId>, own: PeerId, i: nat)
    requires i < |ids|
    ensures Others(ids[..i + 1], own) == Others(ids[..i], own) + (if ids[i] == own then [] else [ids[i]])
  {
    assert ids[..i + 1][..i] == ids[..i];
  }

  class TrackerState {
    var torrents: Torrents

    constructor ()
      ensures torrents == map[]
    {
      torrents := map[];
    }

    method ApplyAnnounce(req: Announce)
      modifies this
      ensures torrents == Applied(old(torrents), req)
    {
      var h, p := req.infoHash, req.peerId;
      // the lookup creates a missing torrent
      if h !in torrents { torrents := torrents[h := map[]]; }
      if req.event == Stopped {
        torrents := torrents[h := torrents[h] - {p}];
        return;
      }
      var peer := Peer(p, req.ip, req.port, req.uploaded, req.downloaded, req.left,
                       req.event == Completed || req.left == 0);
      torrents := torrents[h := torrents[h][p := peer]];
    }

    /** The body of a response; the decoder reads all of it as the response it stands for. */
    method SuccessResponse(req: Announce) returns (body: string)
      ensures body == Encode(ResponseValue(torrents, req))
      ensures Decode(body) == Read(ResponseValue(torrents, req), "")
      ensures Lists(body, PeersOf(torrents, req.infoHash), Listed(torrents, req))
    {
      var peers := PeersOf(torrents, req.infoHash);
      var items := ListPeers(peers, Lex.SortedKeys(peers.Keys), req.peerId, req.numwant);
      body := "d8:intervali100e5:peersl" + items + "ee";
      ResponseDecodes(peers, Listed(torrents, req), body);
    }

    /** `process_announce`: apply, then answer from the new state. If `log` is what has been announced so far, every
        peer is listed as it announced itself last. */
    method ProcessAnnounce(req: AnnounceRequest, ghost log: seq<Announce>) returns (resp: AnnounceResponse)
      modifies this
      ensures torrents == Applied(old(torrents), req.announce)
      ensures resp.serial == req.serial
      ensures Lists(resp.body, PeersOf(torrents, req.announce.infoHash), Listed(torrents, req.announce))
      ensures old(torrents) == AppliedAll(log) ==>
        && torrents == AppliedAll(log + [req.announce])
        && ListsAnnounced(resp.body, log + [req.announce], req.announce.infoHash, Listed(torrents, req.announce))
      ensures Decode(resp.body) == Read(ResponseValue(old(torrents), req.announce), "")
    {
      OwnAnnounceDoesNotShow(torrents, req.announce);
      ApplyAnnounce(req.announce);
      ghost var longer := log + [req.announce];
      assert longer[..|longer| - 1] == log;
      var body := SuccessResponse(req.announce);
      if old(torrents) == AppliedAll(log) {
        ListedAreAnnounced(body, longer, req.announce.infoHash, Listed(torrents, req.announce));
      }
      resp := AnnounceResponse(req.serial, body);
    }
  }
}
