/** The fee refund of a successful, non-redundant IBC relay. */
module RelayRefund {
  datatype Place = Place(port: string, channel: string)

  datatype Packet = Packet(source: Place, destination: Place, sequence: nat)

  datatype Msg =
    | UpdateClient(client: string)
    | RecvPacket(packet: Packet)
    | Acknowledgement(packet: Packet)
    | Timeout(packet: Packet)
    | TimeoutOnClose(packet: Packet)
    | Other

  datatype Channel = Channel(ordered: bool, hops: seq<string>)

  /** One delivery: a receive at this end, or the end of a packet sent from it. */
  datatype Key = Key(sent: bool, at: Place, sequence: nat)

  /** The IBC state the refund reads, and the sequence the next packet sent gets. */
  datatype Ibc = Ibc(
    channels: map<Place, Channel>,
    connections: map<string, string>,
    activePeers: set<string>,
    nextRecv: map<Place, nat>,
    receipts: set<(Place, nat)>,
    nextSend: map<Place, nat>,
    commitments: set<(Place, nat)>)

  predicate Carries(m: Msg) { !m.UpdateClient? && !m.Other? }

  function KeyOf(m: Msg): Key
    requires Carries(m)
  {
    if m.RecvPacket? then Key(false, m.packet.destination, m.packet.sequence)
    else Key(true, m.packet.source, m.packet.sequence)
  }

  predicate OurEnd(ibc: Ibc, p: Place) {
    && p.channel in ibc.activePeers
    && p in ibc.channels && ibc.channels[p].hops != []
    && ibc.channels[p].hops[0] in ibc.connections
  }

  function ClientUnder(ibc: Ibc, p: Place): string
    requires OurEnd(ibc, p)
  {
    ibc.connections[ibc.channels[p].hops[0]]
  }

  predicate Fresh(ibc: Ibc, key: Key) {
    if key.sent then (key.at, key.sequence) in ibc.commitments
    else
      && key.at in ibc.channels
      && if ibc.channels[key.at].ordered then key.at in ibc.nextRecv && key.sequence >= ibc.nextRecv[key.at]
         else (key.at, key.sequence) !in ibc.receipts
  }

  predicate Carriable(ibc: Ibc, m: Msg) {
    m.UpdateClient? || (Carries(m) && OurEnd(ibc, KeyOf(m).at) && Fresh(ibc, KeyOf(m)))
  }

  /** The deliveries the messages carry, in order. */
  function Keys(msgs: seq<Msg>): seq<Key> {
    if msgs == [] then []
    else Keys(msgs[..|msgs| - 1]) + if Carries(msgs[|msgs| - 1]) then [KeyOf(msgs[|msgs| - 1])] else []
  }

  predicate NoRepeats(keys: seq<Key>) { forall i, j :: 0 <= i < j < |keys| ==> keys[i] != keys[j] }

  /** The clients under the channels those packets travel on. */
  ghost function Clients(ibc: Ibc, msgs: seq<Msg>): set<string> {
    set m | m in msgs && Carries(m) && OurEnd(ibc, KeyOf(m).at) :: ClientUnder(ibc, KeyOf(m).at)
  }

  /** What the package documents: only relay messages, at least one packet, each
      fresh and on a peer's channel, none twice, and updates only for the clients
      under those packets. */
  ghost predicate EligibleRelay(ibc: Ibc, msgs: seq<Msg>) {
    && (forall m <- msgs :: Carriable(ibc, m))
    && Keys(msgs) != [] && NoRepeats(Keys(msgs))
    && (forall m <- msgs :: m.UpdateClient? ==> m.client in Clients(ibc, msgs))
  }

  method Eligible(ibc: Ibc, msgs: seq<Msg>) returns (ok: bool)
    ensures ok <==> EligibleRelay(ibc, msgs)
  {
    hide OurEnd, Fresh, ClientUnder, KeyOf, NoRepeats, Keys, Clients;
    NoneRepeat(ibc);
    var packets := 0;
    var seen: set<Key>, clients: set<string>, updates: seq<string> := {}, {}, [];
    var i := 0;
    while i < |msgs|
      invariant 0 <= i <= |msgs| && packets == |Keys(msgs[..i])|
      invariant forall m <- msgs[..i] :: Carriable(ibc, m)
      invariant NoRepeats(Keys(msgs[..i])) && seen == set key | key in Keys(msgs[..i])
      invariant clients == Clients(ibc, msgs[..i])
      invariant forall id :: id in updates <==> UpdateClient(id) in msgs[..i]
    {
      var m := msgs[i];
      KeysStep(msgs, i);
      ClientsStep(ibc, msgs, i);
      match m {
        case UpdateClient(client) =>
          updates := updates + [client];
        case Other =>
          assert m in msgs;
          return false;
        case _ =>
          var key := KeyOf(m);
          if !OurEnd(ibc, key.at) || !Fresh(ibc, key) || key in seen {
            assert m in msgs;
            return false;
          }
          clients := clients + {ClientUnder(ibc, key.at)};
          seen := seen + {key};
          packets := packets + 1;
      }
      i := i + 1;
    }
    assert msgs[..i] == msgs;
    if packets == 0 {
      return false;
    }
    ok := AllIn(updates, clients);
  }

  lemma NoneRepeat(ibc: Ibc)
    ensures Keys([]) == [] && NoRepeats([]) && Clients(ibc, []) == {}
  {
  }

  lemma KeysStep(msgs: seq<Msg>, i: nat)
    requires i < |msgs|
    ensures msgs[..i + 1] == msgs[..i] + [msgs[i]]
    ensures !Carries(msgs[i]) ==> Keys(msgs[..i + 1]) == Keys(msgs[..i])
    ensures Carries(msgs[i]) ==>
      var key := KeyOf(msgs[i]);
      && Keys(msgs[..i + 1]) == Keys(msgs[..i]) + [key]
      && (key in Keys(msgs[..i]) ==> !NoRepeats(Keys(msgs)))
      && (key !in Keys(msgs[..i]) && NoRepeats(Keys(msgs[..i])) ==> NoRepeats(Keys(msgs[..i + 1])))
  {
    assert msgs[..i + 1][..i] == msgs[..i];
    KeysPrefix(msgs, i + 1);
    if Carries(msgs[i]) && KeyOf(msgs[i]) in Keys(msgs[..i]) {
      var k :| 0 <= k < |Keys(msgs[..i])| && Keys(msgs[..i])[k] == KeyOf(msgs[i]);
      assert Keys(msgs)[k] == Keys(msgs)[|Keys(msgs[..i])|];
    }
  }

  lemma ClientsStep(ibc: Ibc, msgs: seq<Msg>, i: nat)
    requires i < |msgs|
    ensures !Carries(msgs[i]) ==> Clients(ibc, msgs[..i + 1]) == Clients(ibc, msgs[..i])
    ensures Carries(msgs[i]) && OurEnd(ibc, KeyOf(msgs[i]).at) ==>
      Clients(ibc, msgs[..i + 1]) == Clients(ibc, msgs[..i]) + {ClientUnder(ibc, KeyOf(msgs[i]).at)}
  {
    hide OurEnd, ClientUnder, KeyOf;
    assert msgs[..i + 1] == msgs[..i] + [msgs[i]];
  }

  lemma {:induction false} KeysPrefix(msgs: seq<Msg>, i: nat)
    requires i <= |msgs|
    ensures Keys(msgs[..i]) <= Keys(msgs)
    decreases |msgs|
  {
    if i < |msgs| {
      KeysPrefix(msgs[..|msgs| - 1], i);
      assert msgs[..|msgs| - 1][..i] == msgs[..i];
    } else {
      assert msgs[..i] == msgs;
    }
  }

  method AllIn(updates: seq<string>, clients: set<string>) returns (ok: bool)
    ensures ok <==> forall client <- updates :: client in clients
  {
    var i := 0;
    while i < |updates|
      invariant 0 <= i <= |updates|
      invariant forall j :: 0 <= j < i ==> updates[j] in clients
    {
      if updates[i] !in clients {
        return false;
      }
      i := i + 1;
    }
    return true;
  }

  // The same in the messages' own fields: a receive is judged at its destination by
  // receive sequence or receipt, the end of a sent packet at its source by commitment.

  predicate EndOpen(ibc: Ibc, port: string, channel: string, client: string) {
    && channel in ibc.activePeers && Place(port, channel) in ibc.channels
    && ibc.channels[Place(port, channel)].hops != []
    && ibc.channels[Place(port, channel)].hops[0] in ibc.connections
    && ibc.connections[ibc.channels[Place(port, channel)].hops[0]] == client
  }

  ghost predicate Under(ibc: Ibc, m: Msg, client: string) {
    match m
    case UpdateClient(_) => false
    case Other => false
    case RecvPacket(p) => EndOpen(ibc, p.destination.port, p.destination.channel, client)
    case _ => EndOpen(ibc, m.packet.source.port, m.packet.source.channel, client)
  }

  ghost predicate Awaited(ibc: Ibc, m: Msg) {
    match m
    case UpdateClient(_) => true
    case Other => false
    case RecvPacket(p) =>
      && (exists client :: Under(ibc, m, client))
      && if ibc.channels[p.destination].ordered
         then p.destination in ibc.nextRecv && ibc.nextRecv[p.destination] <= p.sequence
         else (p.destination, p.sequence) !in ibc.receipts
    case _ => (exists client :: Under(ibc, m, client)) && (m.packet.source, m.packet.sequence) in ibc.commitments
  }

  /** Both deliver one packet: a receive by where it arrives, any other by where it left. */
  predicate Doubles(m: Msg, n: Msg) {
    if m.RecvPacket? && n.RecvPacket? then m.packet.destination == n.packet.destination && m.packet.sequence == n.packet.sequence
    else
      && (m.Acknowledgement? || m.Timeout? || m.TimeoutOnClose?) && (n.Acknowledgement? || n.Timeout? || n.TimeoutOnClose?)
      && m.packet.source == n.packet.source && m.packet.sequence == n.packet.sequence
  }

  lemma UnderMeans(ibc: Ibc, m: Msg)
    ensures Carries(m) && OurEnd(ibc, KeyOf(m).at) <==> exists client :: Under(ibc, m, client)
    ensures forall client :: Under(ibc, m, client) <==>
      (Carries(m) && OurEnd(ibc, KeyOf(m).at) && ClientUnder(ibc, KeyOf(m).at) == client)
  {
    if Carries(m) && OurEnd(ibc, KeyOf(m).at) { assert Under(ibc, m, ClientUnder(ibc, KeyOf(m).at)); }
  }

  lemma AwaitedMeans(ibc: Ibc, m: Msg)
    ensures Awaited(ibc, m) <==> Carriable(ibc, m)
  {
    hide Under, ClientUnder;
    UnderMeans(ibc, m);
  }

  lemma DoublesMeans(m: Msg, n: Msg)
    ensures Doubles(m, n) <==> Carries(m) && Carries(n) && KeyOf(m) == KeyOf(n)
  {}

  predicate NoDoubles(msgs: seq<Msg>) { forall i, j :: 0 <= i < j < |msgs| ==> !Doubles(msgs[i], msgs[j]) }

  lemma {:induction false} NoDoublesMeans(msgs: seq<Msg>)
    ensures NoRepeats(Keys(msgs)) <==> NoDoubles(msgs)
  {
    hide KeyOf, Doubles;
    if msgs != [] {
      var n := |msgs| - 1;
      var rest, m := msgs[..n], msgs[n];
      NoDoublesMeans(rest);
      KeysMean(rest);
      forall i | 0 <= i < n
        ensures Doubles(msgs[i], m) <==> Carries(rest[i]) && Carries(m) && KeyOf(rest[i]) == KeyOf(m)
      {
        DoublesMeans(msgs[i], m);
      }
      assert NoDoubles(msgs) <==> NoDoubles(rest) && forall i :: 0 <= i < n ==> !Doubles(msgs[i], m);
      if Carries(m) {
        RepeatsAdd(Keys(rest), KeyOf(m));
        if KeyOf(m) in Keys(rest) {
          var x :| x in rest && Carries(x) && KeyOf(x) == KeyOf(m);
          var i :| 0 <= i < n && rest[i] == x;
          assert Doubles(msgs[i], m);
        } else {
          assert forall i :: 0 <= i < n ==> rest[i] in rest;
        }
      } else {
        assert Keys(msgs) == Keys(rest);
      }
    }
  }

  lemma RepeatsAdd(keys: seq<Key>, key: Key)
    ensures NoRepeats(keys + [key]) <==> NoRepeats(keys) && key !in keys
  {
    if key in keys {
      var i :| 0 <= i < |keys| && keys[i] == key;
      assert (keys + [key])[i] == (keys + [key])[|keys|];
    }
    if NoRepeats(keys + [key]) {
      forall i, j | 0 <= i < j < |keys|
        ensures keys[i] != keys[j]
      {
        assert (keys + [key])[i] != (keys + [key])[j];
      }
    }
  }

  /** Eligibility in the messages' own fields. */
  lemma EligibleMeans(ibc: Ibc, msgs: seq<Msg>)
    ensures EligibleRelay(ibc, msgs) <==>
      (&& (forall m <- msgs :: Awaited(ibc, m))
       && (exists m <- msgs :: !m.UpdateClient?)
       && NoDoubles(msgs)
       && (forall m <- msgs :: m.UpdateClient? ==> exists n <- msgs :: Under(ibc, n, m.client)))
  {
    hide Awaited, Carriable, Under, OurEnd, ClientUnder, NoRepeats, NoDoubles;
    NoDoublesMeans(msgs);
    forall m | m in msgs
      ensures Awaited(ibc, m) <==> Carriable(ibc, m)
      ensures forall client :: Under(ibc, m, client) <==>
        (Carries(m) && OurEnd(ibc, KeyOf(m).at) && ClientUnder(ibc, KeyOf(m).at) == client)
    {
      AwaitedMeans(ibc, m);
      UnderMeans(ibc, m);
    }
    CarriesSome(ibc, msgs);
    forall client: string
      ensures client in Clients(ibc, msgs) <==> exists n <- msgs :: Under(ibc, n, client)
    {
    }
  }

  lemma CarriesSome(ibc: Ibc, msgs: seq<Msg>)
    ensures (forall m <- msgs :: Carriable(ibc, m)) ==> (Keys(msgs) != [] <==> exists m <- msgs :: !m.UpdateClient?)
  {
    hide OurEnd, Fresh;
    KeysMean(msgs);
    if Keys(msgs) != [] {
      assert Keys(msgs)[0] in Keys(msgs);
    }
    if (forall m <- msgs :: Carriable(ibc, m)) && exists m <- msgs :: !m.UpdateClient? {
      var m :| m in msgs && !m.UpdateClient?;
      assert Carriable(ibc, m) && Carries(m);
      assert KeyOf(m) in Keys(msgs);
    }
  }

  // What IBC itself keeps from one state to the next: a channel keeps its
  // ordering, receive sequences and receipts only grow, and a commitment is only
  // made for the next sequence sent.

  ghost predicate Evolves(a: Ibc, b: Ibc) {
    && (forall p <- a.channels :: p in b.channels && b.channels[p].ordered == a.channels[p].ordered)
    && (forall p <- a.nextRecv :: p in b.nextRecv && a.nextRecv[p] <= b.nextRecv[p])
    && a.receipts <= b.receipts
    && (forall p <- a.nextSend :: p in b.nextSend && a.nextSend[p] <= b.nextSend[p])
    && (forall p, s :: (p, s) in b.commitments && p in a.nextSend && s < a.nextSend[p] ==> (p, s) in a.commitments)
  }

  /** Received, or sent and already acknowledged or timed out. */
  predicate Stale(ibc: Ibc, key: Key) {
    if key.sent then key.at in ibc.nextSend && key.sequence < ibc.nextSend[key.at] && (key.at, key.sequence) !in ibc.commitments
    else
      && key.at in ibc.channels
      && if ibc.channels[key.at].ordered then key.at in ibc.nextRecv && key.sequence < ibc.nextRecv[key.at]
         else (key.at, key.sequence) in ibc.receipts
  }

  lemma StaleForGood(a: Ibc, b: Ibc, key: Key)
    requires Evolves(a, b) && Stale(a, key)
    ensures Stale(b, key) && !Fresh(b, key)
  {
  }

  datatype Coin = Coin(denom: string, amount: nat)

  function AmountOf(fee: seq<Coin>, denom: string): nat {
    if fee == [] then 0
    else AmountOf(fee[..|fee| - 1], denom) + if fee[|fee| - 1].denom == denom then fee[|fee| - 1].amount else 0
  }

  function In(coins: map<string, nat>, denom: string): nat { if denom in coins then coins[denom] else 0 }

  function Least(x: nat, y: nat): nat { if x < y then x else y }

  /** The smallest whole amount of at least a tenth of the gas. */
  function Limit(gas: nat): (r: nat)
    ensures 10 * r >= gas && (r > 0 ==> 10 * (r - 1) < gas)
  {
    (gas + 9) / 10
  }

  /** Valid coins name each denom once. */
  predicate ValidCoins(fee: seq<Coin>) {
    forall i, j :: 0 <= i < j < |fee| ==> fee[i].denom != fee[j].denom
  }

  method RefundAmount(fee: seq<Coin>, gas: nat) returns (out: map<string, nat>)
    ensures forall d :: In(out, d) <= AmountOf(fee, d)
    ensures ValidCoins(fee) ==> forall d :: In(out, d) == Least(AmountOf(fee, d), Limit(gas))
    ensures forall d <- out :: out[d] > 0
  {
    var limit := Limit(gas);
    out := map[];
    var i := 0;
    while i < |fee|
      invariant 0 <= i <= |fee|
      invariant forall d :: In(out, d) <= AmountOf(fee[..i], d)
      invariant ValidCoins(fee) ==> forall d :: In(out, d) == Least(AmountOf(fee[..i], d), Limit(gas))
      invariant forall d <- out :: out[d] > 0
    {
      var c := fee[i];
      assert fee[..i + 1][..i] == fee[..i];
      Absent(fee[..i], c.denom);
      if Least(c.amount, limit) > 0 {
        out := out[c.denom := In(out, c.denom) + Least(c.amount, limit)];
      }
      i := i + 1;
    }
    assert fee[..|fee|] == fee;
  }

  lemma {:induction false} Absent(fee: seq<Coin>, denom: string)
    ensures (forall c <- fee :: c.denom != denom) ==> AmountOf(fee, denom) == 0
  {
    if fee != [] { Absent(fee[..|fee| - 1], denom); }
  }

  // One transaction of a block: what its ante handler finds, how it runs, and
  // what is left when it has run. A successful one leaves its packets stale.

  datatype Tx = Tx(
    height: int, bytes: string, msgs: seq<Msg>, fee: seq<Coin>, gas: nat,
    before: Ibc, success: bool, after: Ibc, payable: bool)

  ghost predicate Runs(t: Tx) {
    && Evolves(t.before, t.after)
    && (t.success ==> forall m <- t.msgs :: Carries(m) ==> Stale(t.after, KeyOf(m)))
  }

  lemma {:induction false} KeysMean(msgs: seq<Msg>)
    ensures forall key :: key in Keys(msgs) <==> exists m <- msgs :: Carries(m) && KeyOf(m) == key
  {
    if msgs != [] {
      KeysMean(msgs[..|msgs| - 1]);
      assert msgs == msgs[..|msgs| - 1] + [msgs[|msgs| - 1]];
    }
  }

  lemma Joined(a: seq<Key>, b: seq<Key>)
    requires NoRepeats(a) && NoRepeats(b) && forall key <- a :: key !in b
    ensures NoRepeats(a + b)
  {
    forall i, j | 0 <= i < j < |a + b|
      ensures (a + b)[i] != (a + b)[j]
    {
      if i < |a| <= j { assert a[i] in a && (a + b)[j] == b[j - |a|]; }
    }
  }

  lemma StaysApart(paid: seq<Key>, t: Tx)
    requires NoRepeats(paid) && EligibleRelay(t.before, t.msgs)
    requires forall key <- paid :: Stale(t.before, key)
    ensures NoRepeats(paid + Keys(t.msgs))
  {
    hide Stale, Fresh, OurEnd;
    KeysMean(t.msgs);
    forall key <- paid
      ensures key !in Keys(t.msgs)
    {
      StaleForGood(t.before, t.before, key);
    }
    Joined(paid, Keys(t.msgs));
  }

  ghost predicate Refunded(t: Tx) { t.success && EligibleRelay(t.before, t.msgs) }

  /** Transactions run one after the other, over any number of blocks. */
  ghost predicate History(txs: seq<Tx>) {
    && (forall t <- txs :: Runs(t))
    && forall i :: 0 < i < |txs| ==> Evolves(txs[i - 1].after, txs[i].before)
  }

  /** The deliveries a run refunds, in order. */
  ghost function Refunds(txs: seq<Tx>): seq<Key> {
    if txs == [] then []
    else Refunds(txs[..|txs| - 1]) + if Refunded(txs[|txs| - 1]) then Keys(txs[|txs| - 1].msgs) else []
  }

  /** No delivery is refunded twice: racing relayers and repeats in a transaction
      included. */
  lemma {:induction false} RefundedOnce(txs: seq<Tx>)
    requires History(txs)
    ensures NoRepeats(Refunds(txs))
    ensures txs != [] ==> forall key <- Refunds(txs) :: Stale(txs[|txs| - 1].after, key)
  {
    hide Stale, Evolves, EligibleRelay;
    if txs != [] {
      var n := |txs| - 1;
      var t := txs[n];
      assert Runs(t);
      var paid := Refunds(txs[..n]);
      RefundedOnce(txs[..n]);
      forall key <- paid
        ensures Stale(t.before, key) && Stale(t.after, key)
      {
        StaleForGood(txs[n - 1].after, t.before, key);
        StaleForGood(t.before, t.after, key);
      }
      if Refunded(t) {
        StaysApart(paid, t);
        KeysMean(t.msgs);
      }
    }
  }

  /** What the fee collector keeps of a transaction's fee. */
  ghost function Kept(t: Tx, denom: string): nat {
    if Refunded(t) && t.payable then AmountOf(t.fee, denom) - Least(AmountOf(t.fee, denom), Limit(t.gas))
    else AmountOf(t.fee, denom)
  }

  ghost function AllKept(txs: seq<Tx>, denom: string): nat {
    if txs == [] then 0 else AllKept(txs[..|txs| - 1], denom) + Kept(txs[|txs| - 1], denom)
  }

  function Deposit(coins: map<string, nat>, fee: seq<Coin>): map<string, nat> {
    map d | d in coins.Keys + (set c <- fee :: c.denom) :: In(coins, d) + AmountOf(fee, d)
  }

  lemma DepositAdds(coins: map<string, nat>, fee: seq<Coin>, denom: string)
    ensures In(Deposit(coins, fee), denom) == In(coins, denom) + AmountOf(fee, denom)
  {
    Absent(fee, denom);
  }

  class Handler {
    const hash: string -> string
    var height: int
    var marked: set<string>
    var collector: map<string, nat>
    ghost var refunded: seq<Key>

    constructor (hash: string -> string)
      ensures this.hash == hash && marked == {} && collector == map[] && refunded == []
    {
      this.hash := hash;
      height, marked, collector, refunded := 0, {}, map[], [];
    }

    /** Marks of an earlier block are dropped. */
    method Rollover(h: int)
      modifies this`height, this`marked
      ensures height == h && marked == if h == old(height) then old(marked) else {}
    {
      if h != height {
        height, marked := h, {};
      }
    }

    method Mark(h: int, bytes: string)
      modifies this`height, this`marked
      ensures height == h && marked == (if h == old(height) then old(marked) else {}) + {hash(bytes)}
    {
      Rollover(h);
      marked := marked + {hash(bytes)};
    }

    method Take(h: int, bytes: string) returns (ok: bool)
      modifies this`height, this`marked
      ensures ok == (h == old(height) && hash(bytes) in old(marked))
      ensures height == h && marked == (if h == old(height) then old(marked) else {}) - {hash(bytes)}
    {
      Rollover(h);
      ok := hash(bytes) in marked;
      marked := marked - {hash(bytes)};
    }

    /** The post handler. */
    method PostHandle(t: Tx)
      requires forall d :: AmountOf(t.fee, d) <= In(collector, d)
      requires ValidCoins(t.fee)
      modifies this
      ensures var ok := t.success && t.height == old(height) && hash(t.bytes) in old(marked);
        && refunded == old(refunded) + (if ok then Keys(t.msgs) else [])
        && forall d :: In(collector, d) == In(old(collector), d) - if ok && t.payable then Least(AmountOf(t.fee, d), Limit(t.gas)) else 0
      ensures height == t.height && marked == (if t.height == old(height) then old(marked) else {}) - {hash(t.bytes)}
    {
      var ok := Take(t.height, t.bytes);
      if t.success && ok {
        refunded := refunded + Keys(t.msgs);
        var out := RefundAmount(t.fee, t.gas);
        if out != map[] && t.payable {
          assert forall d :: In(out, d) <= In(collector, d);
          collector := map d | d in collector :: collector[d] - In(out, d);
        }
      }
    }

    /** One transaction: its fee goes to the collector, its relay is judged before
        it runs, and the refund is paid after. */
    method Execute(t: Tx)
      requires marked == {} && ValidCoins(t.fee)
      modifies this
      ensures marked == {}
      ensures refunded == old(refunded) + if Refunded(t) then Keys(t.msgs) else []
      ensures forall d :: In(collector, d) == In(old(collector), d) + Kept(t, d)
    {
      hide EligibleRelay;
      forall d ensures In(Deposit(collector, t.fee), d) == In(collector, d) + AmountOf(t.fee, d) {
        DepositAdds(collector, t.fee, d);
      }
      hide Deposit, In, AmountOf, Limit;
      collector := Deposit(collector, t.fee);
      var ok := Eligible(t.before, t.msgs);
      if ok {
        Mark(t.height, t.bytes);
      }
      PostHandle(t);
    }

    /** Over a run the collector keeps what its transactions' fees leave after
        their refunds, and no delivery is refunded twice. */
    method Run(txs: seq<Tx>)
      requires marked == {} && refunded == [] && History(txs) && forall t <- txs :: ValidCoins(t.fee)
      modifies this
      ensures marked == {} && refunded == Refunds(txs) && NoRepeats(refunded)
      ensures forall d :: In(collector, d) == In(old(collector), d) + AllKept(txs, d)
    {
      hide EligibleRelay, Evolves, Kept, Refunded, In;
      var i := 0;
      while i < |txs|
        invariant 0 <= i <= |txs| && marked == {} && refunded == Refunds(txs[..i])
        invariant forall d :: In(collector, d) == In(old(collector), d) + AllKept(txs[..i], d)
      {
        assert txs[..i + 1][..i] == txs[..i];
        Execute(txs[i]);
        i := i + 1;
      }
      assert txs[..i] == txs;
      RefundedOnce(txs);
    }
  }
}
