/**
 Pushing events to open sockets. A hub keeps the sockets of one process; a
 bridge per process passes events on over one Redis channel, dropping the
 echo of its own. A publish, a received message, a start and a close are
 each one step; which sends and receptions fail is given from outside.
 */
module RealtimeHub {
  import Finite

  type Id = int
  type Sockets = map<Id, set<int>>

  function SocketsOf(m: Sockets, user: Id): set<int> { if user in m then m[user] else {} }

  predicate NoEmpty(m: Sockets) { forall user | user in m :: m[user] != {} }

  function Joined(m: Sockets, user: Id, socket: int): Sockets { m[user := SocketsOf(m, user) + {socket}] }

  function Left(m: Sockets, user: Id, socket: int): Sockets {
    if user !in m then m
    else if m[user] - {socket} == {} then m - {user}
    else m[user := m[user] - {socket}]
  }

  datatype Step = Connect(user: Id, socket: int) | Disconnect(user: Id, socket: int)

  /** What a failing send does comes down to disconnects, which other steps may fall between. */
  function Run(steps: seq<Step>): Sockets {
    if steps == [] then map[]
    else
      var m := Run(steps[..|steps| - 1]);
      match steps[|steps| - 1]
      case Connect(user, socket) => Joined(m, user, socket)
      case Disconnect(user, socket) => Left(m, user, socket)
  }

  /** Whether the last step about this socket of this user was its connect. */
  function LastConnects(steps: seq<Step>, user: Id, socket: int): bool {
    if steps == [] then false
    else
      var last := steps[|steps| - 1];
      if last.user == user && last.socket == socket then last.Connect?
      else LastConnects(steps[..|steps| - 1], user, socket)
  }

  /** In every run: a socket is registered exactly when it was last connected, and no user is kept without sockets. */
  lemma {:induction false} RegisteredExactly(steps: seq<Step>, user: Id, socket: int)
    ensures socket in SocketsOf(Run(steps), user) <==> LastConnects(steps, user, socket)
    ensures NoEmpty(Run(steps))
  {
    if steps != [] { RegisteredExactly(steps[..|steps| - 1], user, socket); }
  }

  /** Without empty entries a hub's map is determined by the sockets of each user. */
  lemma Canonical(m: Sockets, m': Sockets)
    requires NoEmpty(m) && NoEmpty(m') && forall user :: SocketsOf(m, user) == SocketsOf(m', user)
    ensures m == m'
  {
    forall user | user in m ensures user in m' && m'[user] == m[user] { assert SocketsOf(m, user) == SocketsOf(m', user); }
    forall user | user in m' ensures user in m { assert SocketsOf(m, user) == SocketsOf(m', user); }
  }

  class Hub {
    var connections: Sockets

    predicate Valid()
      reads this
    {
      NoEmpty(connections)
    }

    constructor ()
      ensures Valid() && connections == map[]
    {
      connections := map[];
    }

    method Connect(user: Id, socket: int)
      requires Valid()
      modifies this
      ensures Valid() && connections == Joined(old(connections), user, socket)
    {
      var sockets := if user in connections then connections[user] else {};
      connections := connections[user := sockets + {socket}];
    }

    method Disconnect(user: Id, socket: int)
      requires Valid()
      modifies this
      ensures Valid() && connections == Left(old(connections), user, socket)
    {
      if user !in connections { return; }
      var sockets := connections[user] - {socket};
      if sockets == {} {
        connections := connections - {user};
      } else {
        connections := connections[user := sockets];
      }
    }

    /** Every socket of the user is sent the event; those whose send fails leave, and no others. */
    method Publish(user: Id, broken: set<int>) returns (sent: set<int>)
      requires Valid()
      modifies this
      ensures Valid() && sent == SocketsOf(old(connections), user)
      ensures SocketsOf(connections, user) == SocketsOf(old(connections), user) - broken
      ensures forall other | other != user :: SocketsOf(connections, other) == SocketsOf(old(connections), other)
    {
      sent := if user in connections then connections[user] else {};
      var todo := sent;
      while todo != {}
        invariant Valid() && todo <= sent
        invariant SocketsOf(connections, user) == sent - (broken - todo)
        invariant forall other | other != user :: SocketsOf(connections, other) == SocketsOf(old(connections), other)
        decreases |todo|
      {
        var socket := Finite.Pick(todo);
        if socket in broken { Disconnect(user, socket); }
        todo := todo - {socket};
      }
    }
  }
}

module RealtimeBridge {
  import opened Wrappers

  /** One published event: the id its instance puts on it, and its number among all publishes. */
  datatype Message = Message(origin: int, event: nat)

  /**
   One process: whether it has a Redis address and a client, whether it listens,
   what waits on its subscription, and what its own hub was given, in order.
   */
  datatype Node = Node(id: int, address: bool, client: bool, listening: bool, queue: seq<Message>, delivered: seq<Message>)

  /** All processes; who published each event, in order; and what went out on the channel. */
  datatype World = World(nodes: seq<Node>, publisher: seq<int>, channel: seq<Message>)

  datatype Step =
    | Start(node: nat)
    | Close(node: nat)
    | Publish(node: nat, up: bool)
    | Listen(node: nat)
    | Fail(node: nat)

  /** A start subscribes afresh, and what an earlier subscription held is gone. */
  function Started(n: Node): Node {
    if !n.address && !n.client then n else n.(client := true, listening := true, queue := [])
  }

  function Closed(n: Node): Node { n.(client := false, listening := false, queue := []) }

  /** The next waiting message goes to the hub unless it is an echo. */
  function Received(n: Node): Node {
    if !n.listening || n.queue == [] then n
    else if n.queue[0].origin != n.id then n.(queue := n.queue[1..], delivered := n.delivered + [n.queue[0]])
    else n.(queue := n.queue[1..])
  }

  /** The listener raises: the message in hand is lost. */
  function Lost(n: Node): Node {
    if !n.listening || n.queue == [] then n else n.(queue := n.queue[1..])
  }

  function Pushed(n: Node, m: Message): Node { if n.listening then n.(queue := n.queue + [m]) else n }

  function Broadcast(nodes: seq<Node>, m: Message): (r: seq<Node>)
    ensures |r| == |nodes| && forall k :: 0 <= k < |r| ==> r[k] == Pushed(nodes[k], m)
  {
    seq(|nodes|, k requires 0 <= k < |nodes| => Pushed(nodes[k], m))
  }

  /** The own hub first; then, with a client and Redis up, every listening process, this one included. */
  function Published(w: World, i: nat, up: bool): World
    requires i < |w.nodes|
  {
    var n := w.nodes[i];
    var m := Message(n.id, |w.publisher|);
    var local := w.nodes[i := n.(delivered := n.delivered + [m])];
    if n.client && up then World(Broadcast(local, m), w.publisher + [n.id], w.channel + [m])
    else World(local, w.publisher + [n.id], w.channel)
  }

  function Next(w: World, step: Step): World {
    if step.node >= |w.nodes| then w
    else
      var n := w.nodes[step.node];
      match step
      case Start(i) => w.(nodes := w.nodes[i := Started(n)])
      case Close(i) => w.(nodes := w.nodes[i := Closed(n)])
      case Publish(i, up) => Published(w, i, up)
      case Listen(i) => w.(nodes := w.nodes[i := Received(n)])
      case Fail(i) => w.(nodes := w.nodes[i := Lost(n)])
  }

  function Run(w: World, steps: seq<Step>): World
    decreases |steps|
  {
    if steps == [] then w else Run(Next(w, steps[0]), steps[1..])
  }

  /** Processes that have just come up. */
  predicate Initial(w: World) {
    && w.publisher == [] && w.channel == []
    && forall i :: 0 <= i < |w.nodes| ==> w.nodes[i].queue == [] && w.nodes[i].delivered == [] && !w.nodes[i].listening
  }

  predicate DistinctIds(w: World) {
    forall i, j :: 0 <= i < j < |w.nodes| ==> w.nodes[i].id != w.nodes[j].id
  }

  /** The messages that do, or do not, carry this id. */
  function Own(s: seq<Message>, id: int): seq<Message> {
    if s == [] then []
    else if s[|s| - 1].origin == id then Own(s[..|s| - 1], id) + [s[|s| - 1]]
    else Own(s[..|s| - 1], id)
  }

  function Foreign(s: seq<Message>, id: int): seq<Message> {
    if s == [] then []
    else if s[|s| - 1].origin != id then Foreign(s[..|s| - 1], id) + [s[|s| - 1]]
    else Foreign(s[..|s| - 1], id)
  }

  function CountOf(s: seq<Message>, event: nat): nat {
    if s == [] then 0 else CountOf(s[..|s| - 1], event) + if s[|s| - 1].event == event then 1 else 0
  }

  /** The events an instance published, in order. */
  function Events(publisher: seq<int>, id: int): seq<Message> {
    if publisher == [] then []
    else if publisher[|publisher| - 1] == id then Events(publisher[..|publisher| - 1], id) + [Message(id, |publisher| - 1)]
    else Events(publisher[..|publisher| - 1], id)
  }

  lemma {:induction false} ForeignConcat(s: seq<Message>, t: seq<Message>, id: int)
    ensures Foreign(s + t, id) == Foreign(s, id) + Foreign(t, id)
  {
    if t == [] {
      assert s + t == s;
    } else {
      ForeignConcat(s, t[..|t| - 1], id);
      assert (s + t)[..|s + t| - 1] == s + t[..|t| - 1];
    }
  }

  lemma OwnSnoc(s: seq<Message>, m: Message, id: int)
    ensures Own(s + [m], id) == if m.origin == id then Own(s, id) + [m] else Own(s, id)
    ensures Foreign(s + [m], id) == if m.origin != id then Foreign(s, id) + [m] else Foreign(s, id)
  {
    assert (s + [m])[..|s|] == s;
  }

  /** All a node has or will have from others. */
  function Inflow(n: Node): seq<Message> { Foreign(n.delivered, n.id) + Foreign(n.queue, n.id) }

  lemma ForeignFirst(s: seq<Message>, id: int)
    requires s != []
    ensures Foreign(s, id) == if s[0].origin != id then [s[0]] + Foreign(s[1..], id) else Foreign(s[1..], id)
  {
    OwnSnoc([], s[0], id);
    ForeignConcat([s[0]], s[1..], id);
    assert [s[0]] + s[1..] == s && [] + [s[0]] == [s[0]];
  }

  lemma ReceivedInflow(n: Node)
    ensures Inflow(Received(n)) == Inflow(n) && Own(Received(n).delivered, n.id) == Own(n.delivered, n.id)
  {
    if n.listening && n.queue != [] {
      ForeignFirst(n.queue, n.id);
      OwnSnoc(n.delivered, n.queue[0], n.id);
    }
  }

  lemma PushedInflow(n: Node, m: Message)
    requires n.listening
    ensures Inflow(Pushed(n, m)) == if m.origin != n.id then Inflow(n) + [m] else Inflow(n)
  {
    OwnSnoc(n.queue, m, n.id);
  }

  /* ---- nothing is lost and nothing reordered without a fault ---- */

  predicate Quiet(step: Step, j: nat) { step.node == j ==> step.Publish? || step.Listen? }

  /** What `j` has and will have from others grew by exactly what others put on the channel. */
  predicate Flows(w: World, w': World, j: nat)
    requires j < |w.nodes|
  {
    && |w'.nodes| == |w.nodes| && w'.nodes[j].id == w.nodes[j].id
    && w.channel <= w'.channel
    && Inflow(w'.nodes[j]) == Inflow(w.nodes[j]) + Foreign(w'.channel[|w.channel|..], w.nodes[j].id)
  }

  lemma ForeignSince(a: seq<Message>, b: seq<Message>, c: seq<Message>, id: int)
    requires a <= b <= c
    ensures Foreign(c[|a|..], id) == Foreign(b[|a|..], id) + Foreign(c[|b|..], id)
  {
    ForeignConcat(b[|a|..], c[|b|..], id);
    assert c[|a|..] == b[|a|..] + c[|b|..];
  }

  lemma FlowsOn(w: World, mid: World, end: World, j: nat)
    requires j < |w.nodes| && Flows(w, mid, j) && Flows(mid, end, j)
    ensures Flows(w, end, j)
  {
    ForeignSince(w.channel, mid.channel, end.channel, w.nodes[j].id);
  }

  /** The node after a publish by `i`: its own hub first, then its queue. */
  function AfterPublish(w: World, i: nat, up: bool, j: nat): Node
    requires i < |w.nodes| && j < |w.nodes|
  {
    var n, m := w.nodes[j], Message(w.nodes[i].id, |w.publisher|);
    var given := if i == j then n.(delivered := n.delivered + [m]) else n;
    if w.nodes[i].client && up then Pushed(given, m) else given
  }

  lemma PublishedNode(w: World, i: nat, up: bool, j: nat)
    requires i < |w.nodes| && j < |w.nodes|
    ensures |Published(w, i, up).nodes| == |w.nodes| && Published(w, i, up).nodes[j] == AfterPublish(w, i, up, j)
  {}

  lemma GivenInflow(n: Node, m: Message, own: bool)
    requires own ==> m.origin == n.id
    ensures Inflow(if own then n.(delivered := n.delivered + [m]) else n) == Inflow(n)
  {
    OwnSnoc(n.delivered, m, n.id);
  }

  lemma ChannelInflow(channel: seq<Message>, m: Message, id: int)
    ensures Foreign((channel + [m])[|channel|..], id) == if m.origin != id then [m] else []
  {
    assert (channel + [m])[|channel|..] == [] + [m];
    OwnSnoc([], m, id);
  }

  lemma PublishedInflow(w: World, i: nat, up: bool, j: nat)
    requires i < |w.nodes| && j < |w.nodes| && w.nodes[j].listening
    ensures Flows(w, Published(w, i, up), j) && Published(w, i, up).nodes[j].listening
  {
    PublishedNode(w, i, up, j);
    var n, m := w.nodes[j], Message(w.nodes[i].id, |w.publisher|);
    GivenInflow(n, m, i == j);
    if w.nodes[i].client && up {
      PushedInflow(if i == j then n.(delivered := n.delivered + [m]) else n, m);
      ChannelInflow(w.channel, m, n.id);
    } else {
      assert w.channel[|w.channel|..] == [];
    }
  }

  lemma InflowStep(w: World, step: Step, j: nat)
    requires j < |w.nodes| && w.nodes[j].listening && Quiet(step, j)
    ensures Flows(w, Next(w, step), j) && Next(w, step).nodes[j].listening
  {
    var n := w.nodes[j];
    if step.node < |w.nodes| && step.Publish? {
      PublishedInflow(w, step.node, step.up, j);
    } else if step.Listen? {
      ReceivedInflow(n);
    }
  }

  /**
   Whatever the other processes do and whatever fails elsewhere: as long as a
   process listens without a fault, what its hub was given from others and what
   still waits is what it had before, followed by everything the others put on
   the channel since, each once and in the channel's order.
   */
  lemma {:induction false} InflowExact(w: World, steps: seq<Step>, j: nat)
    requires j < |w.nodes| && w.nodes[j].listening && forall k :: 0 <= k < |steps| ==> Quiet(steps[k], j)
    ensures Flows(w, Run(w, steps), j)
    decreases |steps|
  {
    if steps != [] {
      InflowStep(w, steps[0], j);
      InflowExact(Next(w, steps[0]), steps[1..], j);
      FlowsOn(w, Next(w, steps[0]), Run(w, steps), j);
    }
  }

  /* ---- at most once, and never echoed, in every run ---- */

  predicate Increasing(s: seq<Message>) { forall i, j :: 0 <= i < j < |s| ==> s[i].event < s[j].event }

  /** Every message carries the id its event was published under. */
  predicate Genuine(s: seq<Message>, publisher: seq<int>) {
    forall i :: 0 <= i < |s| ==> s[i].event < |publisher| && s[i].origin == publisher[s[i].event]
  }

  predicate NodeInv(n: Node, publisher: seq<int>) {
    && Increasing(Inflow(n)) && Genuine(Inflow(n), publisher)
    && Own(n.delivered, n.id) == Events(publisher, n.id)
    && (!n.listening ==> n.queue == [])
  }

  ghost predicate Inv(w: World) {
    && DistinctIds(w)
    && forall i :: 0 <= i < |w.nodes| ==> NodeInv(w.nodes[i], w.publisher)
  }

  lemma GenuineLonger(s: seq<Message>, publisher: seq<int>, from: int)
    requires Genuine(s, publisher)
    ensures Genuine(s, publisher + [from])
  {
    forall i | 0 <= i < |s| ensures s[i].event < |publisher| + 1 && s[i].origin == (publisher + [from])[s[i].event] {
      assert s[i].event < |publisher|;
    }
  }

  lemma {:induction false} EventsGenuine(publisher: seq<int>, id: int)
    ensures Increasing(Events(publisher, id)) && Genuine(Events(publisher, id), publisher)
    ensures forall i :: 0 <= i < |Events(publisher, id)| ==> Events(publisher, id)[i].origin == id
  {
    if publisher != [] {
      var front, last := publisher[..|publisher| - 1], publisher[|publisher| - 1];
      EventsGenuine(front, id);
      GenuineLonger(Events(front, id), front, last);
      assert front + [last] == publisher;
    }
  }

  lemma {:induction false} OwnNone(s: seq<Message>, id: int)
    requires forall i :: 0 <= i < |s| ==> s[i].origin != id
    ensures Own(s, id) == []
  {
    if s != [] { OwnNone(s[..|s| - 1], id); }
  }

  /** Cutting the queue only takes messages out of the middle or the end. */
  lemma {:induction false} ForeignTail(s: seq<Message>, id: int)
    requires s != []
    ensures Foreign(s, id) == Foreign(s[..1], id) + Foreign(s[1..], id) && |Foreign(s[..1], id)| <= 1
  {
    ForeignConcat(s[..1], s[1..], id);
    assert s[..1] + s[1..] == s;
  }

  lemma Thinned(a: seq<Message>, x: seq<Message>, b: seq<Message>, publisher: seq<int>)
    requires Increasing(a + (x + b)) && Genuine(a + (x + b), publisher)
    ensures Increasing(a + b) && Genuine(a + b, publisher)
  {
    var all, less := a + (x + b), a + b;
    forall i | 0 <= i < |less| ensures less[i] == all[if i < |a| then i else i + |x|] {}
  }

  lemma LostKeepsInv(n: Node, publisher: seq<int>)
    requires NodeInv(n, publisher)
    ensures NodeInv(Lost(n), publisher)
  {
    if n.listening && n.queue != [] {
      ForeignTail(n.queue, n.id);
      Thinned(Foreign(n.delivered, n.id), Foreign(n.queue[..1], n.id), Foreign(n.queue[1..], n.id), publisher);
    }
  }

  lemma DroppedKeepsInv(n: Node, publisher: seq<int>)
    requires NodeInv(n, publisher)
    ensures NodeInv(Started(n), publisher) && NodeInv(Closed(n), publisher)
  {
    assert Foreign(n.queue, n.id) + [] == Foreign(n.queue, n.id);
    Thinned(Foreign(n.delivered, n.id), Foreign(n.queue, n.id), [], publisher);
    assert Inflow(Closed(n)) == Foreign(n.delivered, n.id) + [];
    assert Foreign(n.delivered, n.id) + [] == Foreign(n.delivered, n.id);
  }

  lemma EventsSnoc(publisher: seq<int>, from: int, id: int)
    ensures Events(publisher + [from], id) == Events(publisher, id) + if from == id then [Message(id, |publisher|)] else []
  {
    assert (publisher + [from])[..|publisher|] == publisher;
  }

  lemma InflowAppend(s: seq<Message>, publisher: seq<int>, from: int)
    requires Increasing(s) && Genuine(s, publisher)
    ensures Increasing(s + [Message(from, |publisher|)]) && Genuine(s + [Message(from, |publisher|)], publisher + [from])
  {
    GenuineLonger(s, publisher, from);
  }

  /** The publishing node: its hub is given the event, and the echo in its queue adds nothing. */
  lemma PublisherKeepsInv(n: Node, publisher: seq<int>, out: bool)
    requires NodeInv(n, publisher)
    ensures var m := Message(n.id, |publisher|);
      var n' := n.(delivered := n.delivered + [m]);
      NodeInv(if out then Pushed(n', m) else n', publisher + [n.id])
  {
    var m := Message(n.id, |publisher|);
    var n' := n.(delivered := n.delivered + [m]);
    OwnSnoc(n.delivered, m, n.id);
    OwnSnoc(n.queue, m, n.id);
    EventsSnoc(publisher, n.id, n.id);
    GenuineLonger(Inflow(n), publisher, n.id);
    assert Inflow(n') == Inflow(n) && Inflow(Pushed(n', m)) == Inflow(n);
  }

  lemma OtherKeepsInv(n: Node, publisher: seq<int>, from: int, out: bool)
    requires NodeInv(n, publisher) && from != n.id
    ensures NodeInv(if out then Pushed(n, Message(from, |publisher|)) else n, publisher + [from])
  {
    EventsSnoc(publisher, from, n.id);
    GenuineLonger(Inflow(n), publisher, from);
    if out && n.listening {
      PushedInflow(n, Message(from, |publisher|));
      InflowAppend(Inflow(n), publisher, from);
    }
  }

  lemma PublishKeepsInv(w: World, i: nat, up: bool)
    requires Inv(w) && i < |w.nodes|
    ensures Inv(Published(w, i, up))
  {
    var n, out, w' := w.nodes[i], w.nodes[i].client && up, Published(w, i, up);
    forall k | 0 <= k < |w'.nodes| ensures NodeInv(w'.nodes[k], w'.publisher) && w'.nodes[k].id == w.nodes[k].id {
      if k == i { PublisherKeepsInv(n, w.publisher, out); }
      else {
        assert w.nodes[k].id != n.id;
        OtherKeepsInv(w.nodes[k], w.publisher, n.id, out);
      }
    }
  }

  lemma NodeKeepsInv(w: World, i: nat, n: Node)
    requires Inv(w) && i < |w.nodes| && n.id == w.nodes[i].id && NodeInv(n, w.publisher)
    ensures Inv(w.(nodes := w.nodes[i := n]))
  {}

  lemma StepKeepsInv(w: World, step: Step)
    requires Inv(w)
    ensures Inv(Next(w, step)) && |Next(w, step).nodes| == |w.nodes|
  {
    if step.node < |w.nodes| {
      var n := w.nodes[step.node];
      match step
      case Publish(i, up) => PublishKeepsInv(w, i, up);
      case Listen(i) =>
        ReceivedInflow(n);
        NodeKeepsInv(w, i, Received(n));
      case Fail(i) =>
        LostKeepsInv(n, w.publisher);
        NodeKeepsInv(w, i, Lost(n));
      case Start(i) =>
        DroppedKeepsInv(n, w.publisher);
        NodeKeepsInv(w, i, Started(n));
      case Close(i) =>
        DroppedKeepsInv(n, w.publisher);
        NodeKeepsInv(w, i, Closed(n));
    }
  }

  lemma InitialInv(w: World)
    requires Initial(w) && DistinctIds(w)
    ensures Inv(w)
  {
    forall i | 0 <= i < |w.nodes| ensures NodeInv(w.nodes[i], w.publisher) {
      assert Inflow(w.nodes[i]) == [];
    }
  }

  lemma {:induction false} RunKeepsInv(w: World, steps: seq<Step>)
    requires Inv(w)
    ensures Inv(Run(w, steps))
    decreases |steps|
  {
    if steps != [] {
      StepKeepsInv(w, steps[0]);
      RunKeepsInv(Next(w, steps[0]), steps[1..]);
    }
  }

  lemma {:induction false} IncreasingOnce(s: seq<Message>, event: nat)
    requires Increasing(s)
    ensures CountOf(s, event) <= 1
    ensures CountOf(s, event) == 1 <==> exists i :: 0 <= i < |s| && s[i].event == event
  {
    if s != [] {
      var front := s[..|s| - 1];
      IncreasingOnce(front, event);
      if i :| 0 <= i < |front| && front[i].event == event { assert s[i].event == event; }
    }
  }

  lemma {:induction false} CountSplit(s: seq<Message>, id: int, event: nat)
    ensures CountOf(s, event) == CountOf(Own(s, id), event) + CountOf(Foreign(s, id), event)
  {
    if s != [] {
      CountSplit(s[..|s| - 1], id, event);
      var x, own, foreign := s[|s| - 1], Own(s[..|s| - 1], id), Foreign(s[..|s| - 1], id);
      assert (own + [x])[..|own|] == own && (foreign + [x])[..|foreign|] == foreign;
      assert own + [] == own && foreign + [] == foreign;
    }
  }

  lemma {:induction false} EventsExactly(publisher: seq<int>, id: int, event: nat)
    ensures CountOf(Events(publisher, id), event) == if event < |publisher| && publisher[event] == id then 1 else 0
  {
    if publisher != [] {
      var n := |publisher| - 1;
      EventsExactly(publisher[..n], id, event);
      var front := Events(publisher[..n], id);
      assert (front + [Message(id, n)])[..|front|] == front && front + [] == front;
    }
  }

  lemma {:induction false} ForeignOrigin(s: seq<Message>, id: int)
    ensures forall i :: 0 <= i < |Foreign(s, id)| ==> Foreign(s, id)[i].origin != id
  {
    if s != [] { ForeignOrigin(s[..|s| - 1], id); }
  }

  /** How often a node's hub was given an event it did not publish, or did. */
  lemma GivenAtMostOnce(n: Node, publisher: seq<int>, event: nat)
    requires NodeInv(n, publisher)
    ensures CountOf(n.delivered, event) <= 1
    ensures event < |publisher| && publisher[event] == n.id ==> CountOf(n.delivered, event) == 1
  {
    var foreign := Foreign(n.delivered, n.id);
    CountSplit(n.delivered, n.id, event);
    EventsExactly(publisher, n.id, event);
    assert forall i :: 0 <= i < |foreign| ==> foreign[i] == Inflow(n)[i];
    IncreasingOnce(foreign, event);
    ForeignOrigin(n.delivered, n.id);
  }

  /**
   In every run of processes with distinct ids, with any starts, closes and
   faults: each event reaches each hub at most once, and the hub of the process
   that published it exactly once, so never again as an echo.
   */
  lemma DeliveredAtMostOnce(w: World, steps: seq<Step>, j: nat, event: nat)
    requires Initial(w) && DistinctIds(w) && j < |Run(w, steps).nodes|
    ensures var w' := Run(w, steps);
      && CountOf(w'.nodes[j].delivered, event) <= 1
      && (event < |w'.publisher| && w'.publisher[event] == w'.nodes[j].id ==> CountOf(w'.nodes[j].delivered, event) == 1)
  {
    InitialInv(w);
    RunKeepsInv(w, steps);
    GivenAtMostOnce(Run(w, steps).nodes[j], Run(w, steps).publisher, event);
  }

  lemma {:induction false} CountConcat(s: seq<Message>, t: seq<Message>, event: nat)
    ensures CountOf(s + t, event) == CountOf(s, event) + CountOf(t, event)
  {
    if t == [] {
      assert s + t == s;
    } else {
      CountConcat(s, t[..|t| - 1], event);
      assert (s + t)[..|s + t| - 1] == s + t[..|t| - 1];
    }
  }

  lemma ForeignOnly(s: seq<Message>, id: int, event: nat)
    requires CountOf(Own(s, id), event) == 0
    ensures CountOf(s, event) == CountOf(Foreign(s, id), event)
  {
    CountSplit(s, id, event);
  }

  /** Present in an increasing list, an event counts once in it. */
  lemma InflowCounts(n: Node, publisher: seq<int>, event: nat, k: nat)
    requires NodeInv(n, publisher) && k < |Inflow(n)| && Inflow(n)[k].event == event
    ensures CountOf(n.delivered, event) + CountOf(Foreign(n.queue, n.id), event) == 1
  {
    IncreasingOnce(Inflow(n), event);
    CountConcat(Foreign(n.delivered, n.id), Foreign(n.queue, n.id), event);
    assert Inflow(n)[k].origin != n.id by {
      ForeignOrigin(n.delivered, n.id);
      ForeignOrigin(n.queue, n.id);
    }
    EventsExactly(publisher, n.id, event);
    ForeignOnly(n.delivered, n.id, event);
  }

  /**
   An event that went out while a process listened is, for as long as that
   process neither faults nor restarts, either delivered to it or waiting for
   it, and counts once in all.
   */
  lemma DeliveredOrWaiting(w: World, steps: seq<Step>, i: nat, j: nat)
    requires Inv(w) && i < |w.nodes| && j < |w.nodes| && i != j
    requires w.nodes[i].client && w.nodes[j].listening && forall k :: 0 <= k < |steps| ==> Quiet(steps[k], j)
    ensures var w' := Run(Published(w, i, true), steps);
      && |w'.nodes| == |w.nodes|
      && CountOf(w'.nodes[j].delivered, |w.publisher|) + CountOf(Foreign(w'.nodes[j].queue, w'.nodes[j].id), |w.publisher|) == 1
  {
    var mid, end := Published(w, i, true), Run(Published(w, i, true), steps);
    var n := mid.nodes[j];
    assert w.nodes[i].id != w.nodes[j].id;
    PushedInflow(w.nodes[j], Message(w.nodes[i].id, |w.publisher|));
    var k := |Inflow(n)| - 1;
    assert Inflow(n)[k].event == |w.publisher|;
    PublishKeepsInv(w, i, true);
    InflowExact(mid, steps, j);
    RunKeepsInv(mid, steps);
    assert Inflow(end.nodes[j])[k] == Inflow(n)[k];
    InflowCounts(end.nodes[j], end.publisher, |w.publisher|, k);
  }

  /** Why the ids must differ: an event reaches a process that listens and waits for nothing else exactly when they do. */
  lemma ReachesExactly(w: World, i: nat, j: nat)
    requires i < |w.nodes| && j < |w.nodes| && i != j
    requires w.nodes[i].client && w.nodes[j].listening && w.nodes[j].queue == []
    ensures var seen := Received(Published(w, i, true).nodes[j]).delivered;
      seen == if w.nodes[i].id != w.nodes[j].id then w.nodes[j].delivered + [Message(w.nodes[i].id, |w.publisher|)]
        else w.nodes[j].delivered
  {
    assert Published(w, i, true).nodes[j].queue == [Message(w.nodes[i].id, |w.publisher|)];
  }

  /** One process's bridge. The hub is reduced to the list of events given to it. */
  class Bridge {
    const id: int
    const address: bool
    var client: bool
    var listening: bool
    var queue: seq<Message>
    var delivered: seq<Message>

    constructor (id: int, address: bool, client: bool)
      ensures View() == Node(id, address, client, false, [], [])
    {
      this.id, this.address, this.client := id, address, client;
      listening, queue, delivered := false, [], [];
    }

    function View(): Node
      reads this
    {
      Node(id, address, client, listening, queue, delivered)
    }

    method Start()
      modifies this
      ensures View() == Started(old(View()))
    {
      if !address && !client { return; }
      if !client { client := true; }
      listening, queue := true, [];
    }

    method Close()
      modifies this
      ensures View() == Closed(old(View()))
    {
      listening, queue := false, [];
      client := false;
    }

    /** Delivers here, and says what, if anything, goes out on the channel. */
    method Publish(event: nat, up: bool) returns (out: Option<Message>)
      modifies this
      ensures View() == old(View()).(delivered := old(delivered) + [Message(id, event)])
      ensures out == if client && up then Some(Message(id, event)) else None
    {
      delivered := delivered + [Message(id, event)];
      if !client { return None; }
      out := if up then Some(Message(id, event)) else None;
    }

    /** The listening loop, until nothing waits: no echo and no faulty message is delivered, all else is, in order. */
    method Drain(faulty: set<Message>)
      requires listening
      modifies this
      ensures View() == old(View()).(queue := [], delivered := old(delivered) + Sound(old(queue), id, faulty))
    {
      ghost var done: seq<Message> := [];
      while queue != []
        invariant client == old(client) && listening == old(listening)
        invariant done + queue == old(queue)
        invariant delivered == old(delivered) + Sound(done, id, faulty)
        decreases |queue|
      {
        var m := queue[0];
        queue := queue[1..];
        SoundSnoc(done, m, id, faulty);
        if m !in faulty && m.origin != id {
          delivered := delivered + [m];
        }
        done := done + [m];
      }
      assert done == old(queue);
    }
  }

  function Sound(s: seq<Message>, id: int, faulty: set<Message>): seq<Message> {
    if s == [] then []
    else
      var last := s[|s| - 1];
      if last !in faulty && last.origin != id then Sound(s[..|s| - 1], id, faulty) + [last] else Sound(s[..|s| - 1], id, faulty)
  }

  lemma SoundSnoc(s: seq<Message>, m: Message, id: int, faulty: set<Message>)
    ensures Sound(s + [m], id, faulty) == if m !in faulty && m.origin != id then Sound(s, id, faulty) + [m] else Sound(s, id, faulty)
  {
    assert (s + [m])[..|s|] == s;
  }

  /** Without faults the loop delivers exactly what is not an echo. */
  lemma {:induction false} DrainsForeign(s: seq<Message>, id: int)
    ensures Sound(s, id, {}) == Foreign(s, id)
  {
    if s != [] { DrainsForeign(s[..|s| - 1], id); }
  }
}
