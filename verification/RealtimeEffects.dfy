/** What each step of the bridge does to every process, told by fields alone. */
module RealtimeEffects {
  import opened RealtimeBridge

  /** A start with a Redis address or a client listens afresh; a close forgets the client, the subscription and what waited. */
  lemma StartCloseEffect(w: World, i: nat)
    requires i < |w.nodes|
    ensures var n, t := w.nodes[i], Next(w, Start(i));
      t == w.(nodes := w.nodes[i := if n.address || n.client then Node(n.id, n.address, true, true, [], n.delivered) else n])
    ensures var n, t := w.nodes[i], Next(w, Close(i));
      t == w.(nodes := w.nodes[i := Node(n.id, n.address, false, false, [], n.delivered)])
  {
  }

  /** A publish gives the event to its own hub, and with a client and Redis up to the queue of every listening process. */
  lemma PublishEffect(w: World, i: nat, up: bool, j: nat)
    requires i < |w.nodes| && j < |w.nodes|
    ensures var t, m, out := Next(w, Publish(i, up)), Message(w.nodes[i].id, |w.publisher|), w.nodes[i].client && up;
      && |t.nodes| == |w.nodes| && t.publisher == w.publisher + [w.nodes[i].id]
      && t.channel == (if out then w.channel + [m] else w.channel)
      && t.nodes[j] == Node(w.nodes[j].id, w.nodes[j].address, w.nodes[j].client, w.nodes[j].listening,
                            if out && w.nodes[j].listening then w.nodes[j].queue + [m] else w.nodes[j].queue,
                            if j == i then w.nodes[j].delivered + [m] else w.nodes[j].delivered)
  {
  }

  /** A listener takes what waited longest: to the hub unless it is an echo, or nowhere if it raises. */
  lemma ListenEffect(w: World, i: nat)
    requires i < |w.nodes|
    ensures var n := w.nodes[i];
      Next(w, Listen(i)) == if n.listening && n.queue != []
        then w.(nodes := w.nodes[i := n.(queue := n.queue[1..],
                  delivered := if n.queue[0].origin != n.id then n.delivered + [n.queue[0]] else n.delivered)])
        else w
    ensures var n := w.nodes[i];
      Next(w, Fail(i)) == if n.listening && n.queue != [] then w.(nodes := w.nodes[i := n.(queue := n.queue[1..])]) else w
  {
    assert w.nodes[i := w.nodes[i]] == w.nodes;
  }
}
