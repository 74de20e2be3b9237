/**
 * The schema document of Orange Canvas: the widgets placed on a canvas, the
 * lines that connect them, and the bookkeeping that keeps both consistent
 * with the signal manager's links. Widgets and lines are records held in
 * sequences; the signal manager is reduced to its set of links. Dialog
 * answers, the signal manager's verdicts and widget instantiation are inputs.
 */
module SchemaDocument {
  import opened Wrappers
  import opened Text
  import opened SignalGraph
  import opened ResetSignals

  /** A widget on the canvas (a CanvasWidget together with its instance). */
  datatype Node = Node(id: WidgetId, caption: string, x: int, y: int, widgetName: string)

  /** A line between two widgets; its signals live in the signal manager. */
  datatype Line = Line(outW: WidgetId, inW: WidgetId, enabled: bool)

  /**
   * One signal pair to connect, with the answers of code outside the model:
   * `displaced` is the widget whose link into the single input `inName` the
   * receiving widget reports (removeExistingSingleLink), `accepted` is the
   * signal manager's answer to addLink.
   */
  datatype LinkRequest = LinkRequest(outName: string, inName: string, displaced: Option<WidgetId>, accepted: bool)

  /** How the signal dialog ended: cancelled or refused, or with a choice of links. */
  datatype Dialog = Refused | Chosen(requests: seq<LinkRequest>)

  /** A widget the registry offers: its file name and default caption. */
  datatype RegistryEntry = RegistryEntry(fileName: string, caption: string)

  /** The records `save` writes and `loadDocument` reads, in document order. */
  datatype WidgetRecord = WidgetRecord(xPos: int, yPos: int, caption: string, widgetName: string)
  datatype ChannelRecord = ChannelRecord(outCaption: string, inCaption: string, enabled: bool, signals: seq<SignalPair>)
  datatype SchemaRecord = SchemaRecord(widgets: seq<WidgetRecord>, channels: seq<ChannelRecord>)

  function RequestPairs(reqs: seq<LinkRequest>): (r: seq<SignalPair>)
    ensures |r| == |reqs|
    ensures forall k :: 0 <= k < |reqs| ==> r[k] == (reqs[k].outName, reqs[k].inName)
  {
    seq(|reqs|, k requires 0 <= k < |reqs| => (reqs[k].outName, reqs[k].inName))
  }

  /** Index of the first element satisfying `p`, or |s| when there is none. */
  function FirstIndex<T>(s: seq<T>, p: T -> bool): (k: nat)
    ensures k <= |s|
    ensures forall j :: 0 <= j < k ==> !p(s[j])
    ensures k < |s| ==> p(s[k])
  {
    if s == [] then 0 else if p(s[0]) then 0 else 1 + FirstIndex(s[1..], p)
  }

  /** Python's `list.remove` once the index of the element is known. */
  function RemoveAt<T>(s: seq<T>, k: nat): (r: seq<T>)
    requires k < |s|
    ensures |r| == |s| - 1
    ensures forall j :: 0 <= j < k ==> r[j] == s[j]
    ensures forall j :: k <= j < |r| ==> r[j] == s[j + 1]
  {
    s[..k] + s[k + 1..]
  }

  function Filter<T(!new)>(s: seq<T>, p: T -> bool): (r: seq<T>)
    ensures forall x :: x in r <==> x in s && p(x)
    ensures |r| <= |s|
  {
    if s == [] then [] else (if p(s[0]) then [s[0]] else []) + Filter(s[1..], p)
  }

  /** `caption + " (" + str(i) + ")"`. */
  function Suffixed(base: string, i: nat): string
  {
    base + " (" + NatStr(i) + ")"
  }

  lemma SuffixedInjective(base: string, m: nat, n: nat)
    requires Suffixed(base, m) == Suffixed(base, n)
    ensures m == n
  {
    var s, t := Suffixed(base, m), Suffixed(base, n);
    assert |NatStr(m)| == |NatStr(n)|;
    assert s[|base| + 2..|s| - 1] == NatStr(m);
    assert t[|base| + 2..|t| - 1] == NatStr(n);
    NatStrInjective(m, n);
  }

  /**
   * The caption a new widget receives when `taken` are the captions in use:
   * the base itself when free, otherwise the base with the suffix " (i)" for
   * the smallest i >= 2 that gives a free caption.
   */
  ghost predicate CaptionChoice(base: string, taken: set<string>, c: string)
  {
    if base !in taken then c == base
    else exists i: nat :: i >= 2 && c == Suffixed(base, i) && c !in taken
                          && forall j: nat :: 2 <= j < i ==> Suffixed(base, j) in taken
  }

  function PairsOf(ls: seq<Line>): set<Edge>
  {
    set l | l in ls :: (l.outW, l.inW)
  }

  /** At most one line per ordered pair of widgets. */
  predicate DistinctPairs(ls: seq<Line>)
  {
    forall i, j :: 0 <= i < j < |ls| ==> (ls[i].outW, ls[i].inW) != (ls[j].outW, ls[j].inW)
  }

  /** Dropping a line together with its links restores the document invariant. */
  lemma RemoveLineCore(ws: seq<Node>, ls: seq<Line>, links: set<SignalLink>, nextId: WidgetId, k: nat, rest: set<SignalLink>)
    requires k < |ls| && CoreOf(ws, ls, links, nextId) && PairsOf(ls) - {(ls[k].outW, ls[k].inW)} <= Edges(links)
    requires forall s :: s in rest <==> s in links && (s.src, s.dst) != (ls[k].outW, ls[k].inW)
    ensures CoreOf(ws, RemoveAt(ls, k), rest, nextId) && PairsOf(RemoveAt(ls, k)) == Edges(rest)
  {
    RemoveAtPairs(ls, k);
    EdgesWithoutPair(links, (ls[k].outW, ls[k].inW));
    assert rest == set s | s in links && (s.src, s.dst) != (ls[k].outW, ls[k].inW);
  }

  lemma RemoveAtPairs(ls: seq<Line>, k: nat)
    requires DistinctPairs(ls) && k < |ls|
    ensures DistinctPairs(RemoveAt(ls, k))
    ensures PairsOf(RemoveAt(ls, k)) == PairsOf(ls) - {(ls[k].outW, ls[k].inW)}
    ensures forall l :: l in RemoveAt(ls, k) <==> l in ls && l != ls[k]
  {
    var r := RemoveAt(ls, k);
    forall l | l in ls && l != ls[k]
      ensures l in r
    {
      var i :| 0 <= i < |ls| && ls[i] == l;
      if i < k {
        assert r[i] == l;
      } else {
        assert r[i - 1] == l;
      }
    }
    forall l | l in r
      ensures l in ls && (l.outW, l.inW) != (ls[k].outW, ls[k].inW)
    {
      var i :| 0 <= i < |r| && r[i] == l;
      if i >= k {
        assert ls[i + 1] == l;
      }
    }
  }

  lemma AppendPairs(ls: seq<Line>, l: Line)
    requires DistinctPairs(ls) && (l.outW, l.inW) !in PairsOf(ls)
    ensures DistinctPairs(ls + [l])
    ensures PairsOf(ls + [l]) == PairsOf(ls) + {(l.outW, l.inW)}
  {
    var r := ls + [l];
    forall i | 0 <= i < |ls|
      ensures (ls[i].outW, ls[i].inW) != (l.outW, l.inW)
    {
      assert ls[i] in ls;
    }
    assert forall x :: x in r <==> x in ls || x == l;
  }

  lemma UpdatePairs(ls: seq<Line>, k: nat, l: Line)
    requires DistinctPairs(ls) && k < |ls| && (l.outW, l.inW) == (ls[k].outW, ls[k].inW)
    ensures DistinctPairs(ls[k := l])
    ensures PairsOf(ls[k := l]) == PairsOf(ls)
  {
    var r := ls[k := l];
    forall p | p in PairsOf(ls)
      ensures p in PairsOf(r)
    {
      var x :| x in ls && p == (x.outW, x.inW);
      var i :| 0 <= i < |ls| && ls[i] == x;
      assert p == (r[i].outW, r[i].inW);
      assert r[i] in r;
    }
    forall p | p in PairsOf(r)
      ensures p in PairsOf(ls)
    {
      var x :| x in r && p == (x.outW, x.inW);
      var i :| 0 <= i < |r| && r[i] == x;
      assert p == (ls[i].outW, ls[i].inW);
      assert ls[i] in ls;
    }
  }

  /** Index of the widget with identity `id`, or |ws|. */
  function IndexOfId(ws: seq<Node>, id: WidgetId): (k: nat)
    ensures k <= |ws|
    ensures k < |ws| ==> ws[k].id == id
    ensures forall j :: 0 <= j < k ==> ws[j].id != id
  {
    FirstIndex(ws, (n: Node) => n.id == id)
  }

  function IdsOf(ws: seq<Node>): set<WidgetId>
  {
    set w | w in ws :: w.id
  }

  /** No two widgets share an identity or a caption. */
  predicate DistinctNodes(ws: seq<Node>)
  {
    forall i, j :: 0 <= i < j < |ws| ==> ws[i].id != ws[j].id && ws[i].caption != ws[j].caption
  }

  /**
   * Unique widget identities (all below the next one to be handed out) and
   * captions, at most one line per ordered pair, lines between widgets of
   * the document, and a line wherever the signal manager has a link.
   */
  ghost predicate CoreOf(ws: seq<Node>, ls: seq<Line>, links: set<SignalLink>, nextId: WidgetId)
  {
    && DistinctNodes(ws)
    && (forall w :: w in ws ==> w.id < nextId)
    && DistinctPairs(ls)
    && (forall l :: l in ls ==> l.outW in IdsOf(ws) && l.inW in IdsOf(ws))
    && Edges(links) <= PairsOf(ls)
  }

  lemma DropNodeCore(ws: seq<Node>, ls: seq<Line>, links: set<SignalLink>, nextId: WidgetId, k: nat)
    requires CoreOf(ws, ls, links, nextId) && k < |ws|
    requires forall l :: l in ls ==> l.outW != ws[k].id && l.inW != ws[k].id
    ensures CoreOf(RemoveAt(ws, k), ls, links, nextId)
    ensures IdsOf(RemoveAt(ws, k)) == IdsOf(ws) - {ws[k].id}
  {
    RemoveAtIds(ws, k);
  }

  lemma RemoveAtIds(ws: seq<Node>, k: nat)
    requires k < |ws| && DistinctNodes(ws)
    ensures DistinctNodes(RemoveAt(ws, k))
    ensures IdsOf(RemoveAt(ws, k)) == IdsOf(ws) - {ws[k].id}
    ensures forall n :: n in RemoveAt(ws, k) <==> n in ws && n.id != ws[k].id
  {
    var r := RemoveAt(ws, k);
    forall n | n in ws && n.id != ws[k].id
      ensures n in r
    {
      var i :| 0 <= i < |ws| && ws[i] == n;
      if i < k {
        assert r[i] == n;
      } else {
        assert r[i - 1] == n;
      }
    }
    forall n | n in r
      ensures n in ws && n.id != ws[k].id
    {
      var i :| 0 <= i < |r| && r[i] == n;
      if i >= k {
        assert ws[i + 1] == n;
      }
    }
  }

  /** Every request the signal manager accepts without displacing another link. */
  predicate Plain(reqs: seq<LinkRequest>)
  {
    forall q :: q in reqs ==> q.displaced.None? && q.accepted
  }

  /** Every widget named as displaced is on the canvas. */
  predicate DisplacedKnown(reqs: seq<LinkRequest>, ids: set<WidgetId>)
  {
    forall q :: q in reqs && q.displaced.Some? ==> q.displaced.value in ids
  }

  function SignalsOf(links: set<SignalLink>, src: WidgetId, dst: WidgetId): set<SignalPair>
  {
    set s | s in links && s.src == src && s.dst == dst :: (s.outName, s.inName)
  }

  lemma SignalsWith(links: set<SignalLink>, l: SignalLink)
    ensures SignalsOf(links + {l}, l.src, l.dst) == SignalsOf(links, l.src, l.dst) + {(l.outName, l.inName)}
  {
  }

  function CaptionsOf(ws: seq<Node>): set<string>
  {
    set w | w in ws :: w.caption
  }

  /** The first widget of `ws` with this caption (getWidgetByCaption). */
  function NodeByCaption(ws: seq<Node>, caption: string): (r: Option<Node>)
    ensures r.Some? <==> caption in CaptionsOf(ws)
    ensures r.Some? ==> r.value in ws && r.value.caption == caption
  {
    var k := FirstIndex(ws, (w: Node) => w.caption == caption);
    if k < |ws| then Some(ws[k]) else None
  }

  /** getWidgetCaption: the caption of the widget `id`, or "" when there is none. */
  function CaptionOfIn(ws: seq<Node>, id: WidgetId): (c: string)
    ensures id !in IdsOf(ws) ==> c == ""
    ensures DistinctNodes(ws) ==> forall n :: n in ws && n.id == id ==> c == n.caption
  {
    var k := IndexOfId(ws, id);
    if k < |ws| then ws[k].caption else ""
  }

  predicate Registered(registry: seq<RegistryEntry>, fileName: string)
  {
    exists e :: e in registry && e.fileName == fileName
  }

  function WidgetRecordOf(n: Node): WidgetRecord
  {
    WidgetRecord(n.x, n.y, n.caption, n.widgetName)
  }

  /** A channel record names the line's widgets by caption, its flag and its signals. */
  ghost predicate DescribesLine(ws: seq<Node>, links: set<SignalLink>, c: ChannelRecord, l: Line)
  {
    && c.outCaption == CaptionOfIn(ws, l.outW)
    && c.inCaption == CaptionOfIn(ws, l.inW)
    && c.enabled == l.enabled
    && forall p :: p in c.signals <==> p in SignalsOf(links, l.outW, l.inW)
  }

  function CaptionsOfRecords(recs: seq<WidgetRecord>): set<string>
  {
    set r | r in recs :: r.caption
  }

  /**
   * Widget records that loading reproduces exactly: each names a registered
   * widget at an explicit position under a non-empty caption that is not
   * taken, and no two share a caption.
   */
  predicate Reproducible(recs: seq<WidgetRecord>, registry: seq<RegistryEntry>, taken: set<string>)
  {
    && (forall r :: r in recs ==>
          r.caption != "" && r.xPos != -1 && r.yPos != -1 && r.caption !in taken && Registered(registry, r.widgetName))
    && forall i, j :: 0 <= i < j < |recs| ==> recs[i].caption != recs[j].caption
  }

  lemma CaptionsAppend(ws: seq<Node>, n: Node)
    ensures CaptionsOf(ws + [n]) == CaptionsOf(ws) + {n.caption}
  {
    assert forall w :: w in ws + [n] <==> w in ws || w == n;
  }

  function LinksFor(src: WidgetId, dst: WidgetId, signals: seq<SignalPair>): set<SignalLink>
  {
    set p | p in signals :: SignalLink(src, dst, p.0, p.1)
  }

  lemma LinksForSnoc(src: WidgetId, dst: WidgetId, signals: seq<SignalPair>, k: nat)
    requires k < |signals|
    ensures LinksFor(src, dst, signals[..k + 1]) == LinksFor(src, dst, signals[..k]) + {SignalLink(src, dst, signals[k].0, signals[k].1)}
  {
    assert signals[..k + 1] == signals[..k] + [signals[k]];
  }

  lemma InLinksFor(src: WidgetId, dst: WidgetId, signals: seq<SignalPair>, p: SignalPair)
    requires p in signals
    ensures SignalLink(src, dst, p.0, p.1) in LinksFor(src, dst, signals)
  {
  }

  lemma ChannelLinksResolved(ws: seq<Node>, c: ChannelRecord, o: Node, i: Node)
    requires NodeByCaption(ws, c.outCaption) == Some(o) && NodeByCaption(ws, c.inCaption) == Some(i)
    ensures ChannelLinks(ws, c) == LinksFor(o.id, i.id, c.signals)
  {
  }

  /** The links loading one channel record adds to a document with widgets `ws`. */
  function ChannelLinks(ws: seq<Node>, c: ChannelRecord): set<SignalLink>
  {
    match (NodeByCaption(ws, c.outCaption), NodeByCaption(ws, c.inCaption))
    case (Some(o), Some(i)) => LinksFor(o.id, i.id, c.signals)
    case _ => {}
  }

  /** The union of `f` over the elements of `xs`. */
  function UnionMap<A, B>(f: A -> set<B>, xs: seq<A>): set<B>
    decreases |xs|
  {
    if xs == [] then {} else UnionMap(f, xs[..|xs| - 1]) + f(xs[|xs| - 1])
  }

  lemma UnionMapSnoc<A, B>(f: A -> set<B>, xs: seq<A>, k: nat)
    requires k < |xs|
    ensures UnionMap(f, xs[..k + 1]) == UnionMap(f, xs[..k]) + f(xs[k])
  {
    assert xs[..k + 1][..k] == xs[..k];
  }

  /** An element is in the union exactly when one of the parts holds it. */
  lemma {:induction false} UnionMapMember<A, B>(f: A -> set<B>, xs: seq<A>, b: B)
    ensures b in UnionMap(f, xs) <==> exists k :: 0 <= k < |xs| && b in f(xs[k])
    decreases |xs|
  {
    if xs != [] {
      var pre := xs[..|xs| - 1];
      UnionMapMember(f, pre, b);
      assert forall k :: 0 <= k < |pre| ==> pre[k] == xs[k];
    }
  }

  /** The links loading all channel records adds. */
  function ChannelsLinks(ws: seq<Node>, chans: seq<ChannelRecord>): set<SignalLink>
  {
    UnionMap(c => ChannelLinks(ws, c), chans)
  }

  lemma ChannelsLinksSnoc(ws: seq<Node>, chans: seq<ChannelRecord>, k: nat)
    requires k < |chans|
    ensures ChannelsLinks(ws, chans[..k + 1]) == ChannelsLinks(ws, chans[..k]) + ChannelLinks(ws, chans[k])
  {
    UnionMapSnoc(c => ChannelLinks(ws, c), chans, k);
  }

  /** A link is added by loading the channel records exactly when one of them adds it. */
  lemma ChannelsLinksMember(ws: seq<Node>, chans: seq<ChannelRecord>, s: SignalLink)
    ensures s in ChannelsLinks(ws, chans) <==> exists k :: 0 <= k < |chans| && s in ChannelLinks(ws, chans[k])
  {
    UnionMapMember(c => ChannelLinks(ws, c), chans, s);
  }

  /** The line loading one channel record draws: both captions name widgets and it lists a signal. */
  function ChannelLine(ws: seq<Node>, c: ChannelRecord): Option<Line>
  {
    if c.signals == [] then None
    else match (NodeByCaption(ws, c.outCaption), NodeByCaption(ws, c.inCaption))
      case (Some(o), Some(i)) => Some(Line(o.id, i.id, c.enabled))
      case _ => None
  }

  /** The lines after loading one channel record: its line is appended unless its pair has one. */
  function LoadStep(ws: seq<Node>, ls: seq<Line>, c: ChannelRecord): seq<Line>
  {
    match ChannelLine(ws, c)
    case None => ls
    case Some(l) => if (l.outW, l.inW) in PairsOf(ls) then ls else ls + [l]
  }

  /** A channel record whose captions both name widgets draws its line unless it lists no signal. */
  lemma LoadStepResolved(ws: seq<Node>, ls: seq<Line>, c: ChannelRecord, o: Node, i: Node)
    requires NodeByCaption(ws, c.outCaption) == Some(o) && NodeByCaption(ws, c.inCaption) == Some(i)
    ensures c.signals == [] ==> LoadStep(ws, ls, c) == ls
    ensures c.signals != [] ==>
              LoadStep(ws, ls, c) == ls + (if (o.id, i.id) in PairsOf(ls) then [] else [Line(o.id, i.id, c.enabled)])
  {
  }

  /** A channel record with a caption that names no widget draws nothing. */
  lemma LoadStepUnresolved(ws: seq<Node>, ls: seq<Line>, c: ChannelRecord)
    requires NodeByCaption(ws, c.outCaption).None? || NodeByCaption(ws, c.inCaption).None?
    ensures LoadStep(ws, ls, c) == ls
  {
  }

  /** The lines after loading the channel records one after another. */
  function LoadedLines(ws: seq<Node>, chans: seq<ChannelRecord>, ls: seq<Line>): seq<Line>
    decreases |chans|
  {
    if chans == [] then ls else LoadStep(ws, LoadedLines(ws, chans[..|chans| - 1], ls), chans[|chans| - 1])
  }

  lemma LoadedLinesSnoc(ws: seq<Node>, chans: seq<ChannelRecord>, ls: seq<Line>, k: nat)
    requires k < |chans|
    ensures LoadedLines(ws, chans[..k + 1], ls) == LoadStep(ws, LoadedLines(ws, chans[..k], ls), chans[k])
  {
    assert chans[..k + 1][..k] == chans[..k];
  }

  /** The links of a document with widget identities replaced by captions. */
  function CaptionLinksOf(ws: seq<Node>, links: set<SignalLink>): set<(string, string, string, string)>
  {
    set s | s in links :: (CaptionOfIn(ws, s.src), CaptionOfIn(ws, s.dst), s.outName, s.inName)
  }

  /** Widgets listed in the same order under the same captions are found by caption at the same place. */
  lemma SameCaptionLookup(dws: seq<Node>, ews: seq<Node>, i: nat)
    requires |ews| == |dws| && i < |dws| && DistinctNodes(ews)
    requires forall k :: 0 <= k < |dws| ==> ews[k].caption == dws[k].caption
    ensures NodeByCaption(ews, dws[i].caption) == Some(ews[i])
  {
    var r := NodeByCaption(ews, dws[i].caption);
    assert ews[i] in ews;
    var j :| 0 <= j < |ews| && ews[j] == r.value;
    if j < i {
      assert ews[j].caption != ews[i].caption;
    } else if j > i {
      assert ews[i].caption != ews[j].caption;
    }
  }

  /** A link of the line described by the `k`-th channel record comes back through that record. */
  lemma KeptThroughChannel(dws: seq<Node>, dlinks: set<SignalLink>, l: Line, chans: seq<ChannelRecord>, k: nat,
                           ews: seq<Node>, i: nat, i2: nat, s: SignalLink)
    requires k < |chans| && DescribesLine(dws, dlinks, chans[k], l)
    requires |ews| == |dws| && DistinctNodes(ews) && DistinctNodes(dws)
    requires forall j :: 0 <= j < |dws| ==> ews[j].caption == dws[j].caption
    requires i < |dws| && i2 < |dws| && dws[i].id == l.outW && dws[i2].id == l.inW
    requires s in dlinks && s.src == l.outW && s.dst == l.inW
    ensures (CaptionOfIn(dws, s.src), CaptionOfIn(dws, s.dst), s.outName, s.inName) in CaptionLinksOf(ews, ChannelsLinks(ews, chans))
  {
    assert dws[i] in dws && dws[i2] in dws;
    SameCaptionLookup(dws, ews, i);
    SameCaptionLookup(dws, ews, i2);
    var c := chans[k];
    assert c.outCaption == dws[i].caption && c.inCaption == dws[i2].caption;
    assert (s.outName, s.inName) in SignalsOf(dlinks, l.outW, l.inW);
    assert (s.outName, s.inName) in c.signals;
    var s2 := SignalLink(ews[i].id, ews[i2].id, s.outName, s.inName);
    InLinksFor(ews[i].id, ews[i2].id, c.signals, (s.outName, s.inName));
    ChannelLinksResolved(ews, c, ews[i], ews[i2]);
    ChannelsLinksMember(ews, chans, s2);
    assert ews[i] in ews && ews[i2] in ews;
    assert (CaptionOfIn(ews, s2.src), CaptionOfIn(ews, s2.dst), s2.outName, s2.inName)
        == (CaptionOfIn(dws, s.src), CaptionOfIn(dws, s.dst), s.outName, s.inName);
  }

  /** Every link of the saved document comes back, between the widgets with the same captions. */
  lemma RoundTripKeepsLink(dws: seq<Node>, dls: seq<Line>, dlinks: set<SignalLink>, nextId: WidgetId,
                           chans: seq<ChannelRecord>, ews: seq<Node>, s: SignalLink)
    requires CoreOf(dws, dls, dlinks, nextId) && PairsOf(dls) == Edges(dlinks)
    requires |chans| == |dls| && forall k :: 0 <= k < |dls| ==> DescribesLine(dws, dlinks, chans[k], dls[k])
    requires |ews| == |dws| && DistinctNodes(ews)
    requires forall k :: 0 <= k < |dws| ==> ews[k].caption == dws[k].caption
    requires s in dlinks
    ensures (CaptionOfIn(dws, s.src), CaptionOfIn(dws, s.dst), s.outName, s.inName) in CaptionLinksOf(ews, ChannelsLinks(ews, chans))
  {
    assert (s.src, s.dst) in PairsOf(dls);
    var l :| l in dls && (l.outW, l.inW) == (s.src, s.dst);
    var k :| 0 <= k < |dls| && dls[k] == l;
    var i :| 0 <= i < |dws| && dws[i].id == l.outW;
    var i2 :| 0 <= i2 < |dws| && dws[i2].id == l.inW;
    KeptThroughChannel(dws, dlinks, l, chans, k, ews, i, i2, s);
  }

  /** Every link loading adds was in the saved document, between the widgets with the same captions. */
  lemma RoundTripAddsNoLink(dws: seq<Node>, dls: seq<Line>, dlinks: set<SignalLink>, nextId: WidgetId,
                            chans: seq<ChannelRecord>, ews: seq<Node>, s: SignalLink)
    requires CoreOf(dws, dls, dlinks, nextId)
    requires |chans| == |dls| && forall k :: 0 <= k < |dls| ==> DescribesLine(dws, dlinks, chans[k], dls[k])
    requires DistinctNodes(ews)
    requires s in ChannelsLinks(ews, chans)
    ensures (CaptionOfIn(ews, s.src), CaptionOfIn(ews, s.dst), s.outName, s.inName) in CaptionLinksOf(dws, dlinks)
  {
    ChannelsLinksMember(ews, chans, s);
    var k :| 0 <= k < |chans| && s in ChannelLinks(ews, chans[k]);
    var c, l := chans[k], dls[k];
    var o, i := NodeByCaption(ews, c.outCaption).value, NodeByCaption(ews, c.inCaption).value;
    var p :| p in c.signals && s == SignalLink(o.id, i.id, p.0, p.1);
    assert p in SignalsOf(dlinks, l.outW, l.inW);
    var t :| t in dlinks && t.src == l.outW && t.dst == l.inW && p == (t.outName, t.inName);
    assert (CaptionOfIn(dws, t.src), CaptionOfIn(dws, t.dst), t.outName, t.inName)
        == (CaptionOfIn(ews, s.src), CaptionOfIn(ews, s.dst), s.outName, s.inName);
  }

  /**
   * Saving a valid document and loading the records into a document whose
   * widgets carry the same captions in the same order restores the same
   * links, widget identities read as captions.
   */
  lemma RoundTripLinks(dws: seq<Node>, dls: seq<Line>, dlinks: set<SignalLink>, nextId: WidgetId,
                       chans: seq<ChannelRecord>, ews: seq<Node>)
    requires CoreOf(dws, dls, dlinks, nextId) && PairsOf(dls) == Edges(dlinks)
    requires |chans| == |dls| && forall k :: 0 <= k < |dls| ==> DescribesLine(dws, dlinks, chans[k], dls[k])
    requires |ews| == |dws| && DistinctNodes(ews)
    requires forall k :: 0 <= k < |dws| ==> ews[k].caption == dws[k].caption
    ensures CaptionLinksOf(ews, ChannelsLinks(ews, chans)) == CaptionLinksOf(dws, dlinks)
  {
    forall s | s in dlinks
      ensures (CaptionOfIn(dws, s.src), CaptionOfIn(dws, s.dst), s.outName, s.inName) in CaptionLinksOf(ews, ChannelsLinks(ews, chans))
    {
      RoundTripKeepsLink(dws, dls, dlinks, nextId, chans, ews, s);
    }
    forall s | s in ChannelsLinks(ews, chans)
      ensures (CaptionOfIn(ews, s.src), CaptionOfIn(ews, s.dst), s.outName, s.inName) in CaptionLinksOf(dws, dlinks)
    {
      RoundTripAddsNoLink(dws, dls, dlinks, nextId, chans, ews, s);
    }
  }

  /** A loaded line matches a saved one: the same flag, between widgets with the same captions. */
  ghost predicate SameLine(ews: seq<Node>, el: Line, dws: seq<Node>, dl: Line)
  {
    && el.enabled == dl.enabled
    && CaptionOfIn(ews, el.outW) == CaptionOfIn(dws, dl.outW)
    && CaptionOfIn(ews, el.inW) == CaptionOfIn(dws, dl.inW)
  }

  /** A widget on the canvas is found by its identity. */
  lemma IndexOfPresentId(ws: seq<Node>, id: WidgetId)
    requires id in IdsOf(ws)
    ensures IndexOfId(ws, id) < |ws|
  {
    var n :| n in ws && n.id == id;
    var i :| 0 <= i < |ws| && ws[i] == n;
    assert IndexOfId(ws, id) <= i;
  }

  /** The loaded lines `els` match the saved lines `dls` place by place, as far as they go. */
  ghost predicate LinesMatch(ews: seq<Node>, els: seq<Line>, dws: seq<Node>, dls: seq<Line>)
  {
    |els| <= |dls| && forall j :: 0 <= j < |els| ==> SameLine(ews, els[j], dws, dls[j])
  }

  /** With unique captions, a caption names one widget identity. */
  lemma CaptionNamesOne(ws: seq<Node>, a: WidgetId, b: WidgetId)
    requires DistinctNodes(ws) && a in IdsOf(ws) && b in IdsOf(ws) && CaptionOfIn(ws, a) == CaptionOfIn(ws, b)
    ensures a == b
  {
    IndexOfPresentId(ws, a);
    IndexOfPresentId(ws, b);
    assert IndexOfId(ws, a) == IndexOfId(ws, b);
  }

  /** Loaded lines that match saved lines share a pair of widgets only when the saved ones do. */
  lemma SameLinesSamePair(ews: seq<Node>, dws: seq<Node>, e1: Line, d1: Line, e2: Line, d2: Line)
    requires DistinctNodes(dws)
    requires d1.outW in IdsOf(dws) && d1.inW in IdsOf(dws) && d2.outW in IdsOf(dws) && d2.inW in IdsOf(dws)
    requires SameLine(ews, e1, dws, d1) && SameLine(ews, e2, dws, d2)
    requires (e1.outW, e1.inW) == (e2.outW, e2.inW)
    ensures (d1.outW, d1.inW) == (d2.outW, d2.inW)
  {
    CaptionNamesOne(dws, d1.outW, d2.outW);
    CaptionNamesOne(dws, d1.inW, d2.inW);
  }

  /** A line of a valid document carries a signal, so its channel record lists one. */
  lemma SavedLineHasSignal(dws: seq<Node>, dlinks: set<SignalLink>, c: ChannelRecord, d: Line, dls: seq<Line>)
    requires d in dls && PairsOf(dls) == Edges(dlinks) && DescribesLine(dws, dlinks, c, d)
    ensures c.signals != []
  {
    assert (d.outW, d.inW) in Edges(dlinks);
    var s :| s in dlinks && (d.outW, d.inW) == (s.src, s.dst);
    assert (s.outName, s.inName) in SignalsOf(dlinks, d.outW, d.inW);
  }

  /** The channel record of a saved line draws a line matching it. */
  lemma ChannelRestoresLine(dws: seq<Node>, dlinks: set<SignalLink>, c: ChannelRecord, d: Line, ews: seq<Node>) returns (l: Line)
    requires DistinctNodes(dws) && d.outW in IdsOf(dws) && d.inW in IdsOf(dws)
    requires DescribesLine(dws, dlinks, c, d) && c.signals != []
    requires |ews| == |dws| && DistinctNodes(ews)
    requires forall j :: 0 <= j < |dws| ==> ews[j].caption == dws[j].caption
    ensures ChannelLine(ews, c) == Some(l) && SameLine(ews, l, dws, d)
  {
    var i := IndexOfId(dws, d.outW);
    var i2 := IndexOfId(dws, d.inW);
    IndexOfPresentId(dws, d.outW);
    IndexOfPresentId(dws, d.inW);
    SameCaptionLookup(dws, ews, i);
    SameCaptionLookup(dws, ews, i2);
    assert ews[i] in ews && ews[i2] in ews;
    l := Line(ews[i].id, ews[i2].id, d.enabled);
  }

  /** Channel records saved from a valid document, and widgets with the saved captions in order. */
  ghost predicate SavedRecords(dws: seq<Node>, dls: seq<Line>, dlinks: set<SignalLink>, nextId: WidgetId,
                               chans: seq<ChannelRecord>, ews: seq<Node>)
  {
    && CoreOf(dws, dls, dlinks, nextId) && PairsOf(dls) == Edges(dlinks)
    && |chans| == |dls| && (forall k :: 0 <= k < |dls| ==> DescribesLine(dws, dlinks, chans[k], dls[k]))
    && |ews| == |dws| && DistinctNodes(ews)
    && forall k :: 0 <= k < |dws| ==> ews[k].caption == dws[k].caption
  }

  /**
   * Loading the channel record of the `k`-th saved line after lines matching
   * the saved lines before it appends a line matching the `k`-th.
   */
  lemma RoundTripLineStep(dws: seq<Node>, dls: seq<Line>, dlinks: set<SignalLink>, nextId: WidgetId,
                          chans: seq<ChannelRecord>, ews: seq<Node>, r: seq<Line>) returns (l: Line)
    requires SavedRecords(dws, dls, dlinks, nextId, chans, ews) && |r| < |chans|
    requires LinesMatch(ews, r, dws, dls)
    ensures LoadStep(ews, r, chans[|r|]) == r + [l]
    ensures LinesMatch(ews, r + [l], dws, dls)
  {
    var d := dls[|r|];
    assert d in dls;
    SavedLineHasSignal(dws, dlinks, chans[|r|], d, dls);
    l := ChannelRestoresLine(dws, dlinks, chans[|r|], d, ews);
    UnjoinedPair(dws, dls, ews, r, l);
    LinesMatchSnoc(ews, r, l, dws, dls);
  }

  /** A line matching the next saved line joins a pair that no earlier loaded line joins. */
  lemma UnjoinedPair(dws: seq<Node>, dls: seq<Line>, ews: seq<Node>, r: seq<Line>, l: Line)
    requires DistinctNodes(dws) && DistinctPairs(dls)
    requires forall x :: x in dls ==> x.outW in IdsOf(dws) && x.inW in IdsOf(dws)
    requires |r| < |dls| && LinesMatch(ews, r, dws, dls) && SameLine(ews, l, dws, dls[|r|])
    ensures (l.outW, l.inW) !in PairsOf(r)
  {
    var d := dls[|r|];
    assert d in dls;
    forall m | m in r
      ensures (m.outW, m.inW) != (l.outW, l.inW)
    {
      var j :| 0 <= j < |r| && r[j] == m;
      assert dls[j] in dls;
      if (m.outW, m.inW) == (l.outW, l.inW) {
        SameLinesSamePair(ews, dws, m, dls[j], l, d);
        assert false;
      }
    }
  }

  /** Lines matching place by place stay so when the next matching line is appended. */
  lemma LinesMatchSnoc(ews: seq<Node>, r: seq<Line>, l: Line, dws: seq<Node>, dls: seq<Line>)
    requires |r| < |dls| && LinesMatch(ews, r, dws, dls) && SameLine(ews, l, dws, dls[|r|])
    ensures LinesMatch(ews, r + [l], dws, dls)
  {
    forall j | 0 <= j < |r|
      ensures (r + [l])[j] == r[j]
    {
    }
    assert (r + [l])[|r|] == l;
  }

  /**
   * Saving a valid document and loading the records into a document without
   * lines whose widgets carry the same captions in the same order draws the
   * same lines in the same order, with the same flags.
   */
  lemma RoundTripLines(dws: seq<Node>, dls: seq<Line>, dlinks: set<SignalLink>, nextId: WidgetId,
                       chans: seq<ChannelRecord>, ews: seq<Node>)
    requires CoreOf(dws, dls, dlinks, nextId) && PairsOf(dls) == Edges(dlinks)
    requires |chans| == |dls| && forall k :: 0 <= k < |dls| ==> DescribesLine(dws, dlinks, chans[k], dls[k])
    requires |ews| == |dws| && DistinctNodes(ews)
    requires forall k :: 0 <= k < |dws| ==> ews[k].caption == dws[k].caption
    ensures |LoadedLines(ews, chans, [])| == |dls|
    ensures forall k :: 0 <= k < |dls| ==> SameLine(ews, LoadedLines(ews, chans, [])[k], dws, dls[k])
  {
    assert SavedRecords(dws, dls, dlinks, nextId, chans, ews);
    var k, r := 0, [];
    assert chans[..k] == [];
    while k < |chans|
      invariant k <= |chans| && |r| == k && r == LoadedLines(ews, chans[..k], [])
      invariant LinesMatch(ews, r, dws, dls)
    {
      var l := RoundTripLineStep(dws, dls, dlinks, nextId, chans, ews, r);
      LoadedLinesSnoc(ews, chans, [], k);
      r, k := r + [l], k + 1;
    }
    assert chans[..k] == chans;
  }

  /** Loading saved channel records restores both the links and the lines, read through captions. */
  lemma RoundTripRecords(dws: seq<Node>, dls: seq<Line>, dlinks: set<SignalLink>, nextId: WidgetId,
                         chans: seq<ChannelRecord>, ews: seq<Node>)
    requires SavedRecords(dws, dls, dlinks, nextId, chans, ews)
    ensures CaptionLinksOf(ews, ChannelsLinks(ews, chans)) == CaptionLinksOf(dws, dlinks)
    ensures |LoadedLines(ews, chans, [])| == |dls|
    ensures forall k :: 0 <= k < |dls| ==> SameLine(ews, LoadedLines(ews, chans, [])[k], dws, dls[k])
  {
    RoundTripLinks(dws, dls, dlinks, nextId, chans, ews);
    RoundTripLines(dws, dls, dlinks, nextId, chans, ews);
  }

  lemma FirstInSeq<T>(s: seq<T>)
    requires s != []
    ensures s[0] in s
  {
  }

  lemma SubsetNoLarger<T>(A: set<T>, B: set<T>)
    requires A <= B
    ensures |A| <= |B|
  {
    if A != B {
      ProperSubsetSmaller(A, B);
    }
  }

  function Max(a: int, b: int): int
  {
    if a >= b then a else b
  }

  class SchemaDoc {
    var widgets: seq<Node>
    var lines: seq<Line>
    /** The signal manager's links. */
    var links: set<SignalLink>
    var canSave: bool
    /** Identity given to the next widget instance. */
    var nextId: WidgetId

    function Ids(): set<WidgetId>
      reads this
    {
      IdsOf(widgets)
    }

    function Captions(): set<string>
      reads this
    {
      CaptionsOf(widgets)
    }

    function LinePairs(): set<Edge>
      reads this
    {
      PairsOf(lines)
    }

    /** The signal pairs joining `src` to `dst` (the manager's findSignals). */
    function Signals(src: WidgetId, dst: WidgetId): set<SignalPair>
      reads this
    {
      SignalsOf(links, src, dst)
    }

    /** Everything the document maintains, except that a line may lack signals. */
    ghost predicate Core()
      reads this
    {
      CoreOf(widgets, lines, links, nextId)
    }

    /**
     * The document invariant: unique widget identities and captions, at most
     * one line per ordered pair of widgets, and a line exactly where the
     * signal manager has signals.
     */
    ghost predicate Valid()
      reads this
    {
      Core() && LinePairs() == Edges(links)
    }

    /** Valid, except that the line from `src` to `dst` may have lost its signals. */
    ghost predicate ValidExcept(src: WidgetId, dst: WidgetId)
      reads this
    {
      Core() && LinePairs() - {(src, dst)} <= Edges(links)
    }

    constructor ()
      ensures Valid()
      ensures widgets == [] && lines == [] && links == {} && !canSave
    {
      widgets, lines, links := [], [], {};
      canSave, nextId := false, 0;
    }

    /** The first widget with this caption, if any. */
    function GetWidgetByCaption(caption: string): (r: Option<Node>)
      reads this
      ensures r.Some? <==> caption in Captions()
      ensures r.Some? ==> r.value in widgets && r.value.caption == caption
    {
      NodeByCaption(widgets, caption)
    }

    /** The widget whose instance is `id`, if any. */
    function FindWidgetFromInstance(id: WidgetId): (r: Option<Node>)
      reads this
      ensures r.Some? <==> id in Ids()
      ensures r.Some? ==> r.value in widgets && r.value.id == id
    {
      var k := FirstIndex(widgets, (w: Node) => w.id == id);
      if k < |widgets| then Some(widgets[k]) else None
    }

    /** The line from `src` to `dst`, if any. */
    function GetLine(src: WidgetId, dst: WidgetId): (r: Option<Line>)
      reads this
      ensures r.Some? <==> (src, dst) in LinePairs()
      ensures r.Some? ==> r.value in lines && r.value.outW == src && r.value.inW == dst
    {
      var k := FirstIndex(lines, (l: Line) => l.outW == src && l.inW == dst);
      if k < |lines| then Some(lines[k]) else None
    }

    /** The widget's `inLines` list, kept in step with `lines`. */
    function InLines(w: WidgetId): (r: seq<Line>)
      reads this
      ensures forall l :: l in r <==> l in lines && l.inW == w
    {
      Filter(lines, (l: Line) => l.inW == w)
    }

    /** The widget's `outLines` list, kept in step with `lines`. */
    function OutLines(w: WidgetId): (r: seq<Line>)
      reads this
      ensures forall l :: l in r <==> l in lines && l.outW == w
    {
      Filter(lines, (l: Line) => l.outW == w)
    }
  
    /** Where `addWidget` puts a widget when no position is given. */
    method PlaceNewWidget(contentsX: int) returns (x: int, y: int)
      ensures y == 150
      ensures widgets == [] ==> x == contentsX + 10
      ensures widgets != [] ==> x % 10 == 0
      ensures forall w :: w in widgets ==> x >= w.x + 101
    {
      x := contentsX + 10;
      var k := 0;
      while k < |widgets|
        invariant 0 <= k <= |widgets|
        invariant k == 0 ==> x == contentsX + 10
        invariant k > 0 ==> x % 10 == 0
        invariant forall j :: 0 <= j < k ==> x >= widgets[j].x + 101
      {
        var m := Max(widgets[k].x + 110, x);
        x := m / 10 * 10;
        k := k + 1;
      }
      y := 150;
    }

    /** The caption `addWidget` settles on for a widget asking for `base`. */
    method UniqueCaption(base: string) returns (caption: string)
      ensures caption !in Captions()
      ensures CaptionChoice(base, Captions(), caption)
    {
      if GetWidgetByCaption(base).None? {
        return base;
      }
      var i: nat := 2;
      ghost var taken := Captions();
      ghost var tried: set<string> := {};
      while GetWidgetByCaption(Suffixed(base, i)).Some?
        invariant i >= 2
        invariant forall j: nat :: 2 <= j < i ==> Suffixed(base, j) in taken
        invariant tried <= taken && |tried| == i - 2
        invariant forall c :: c in tried ==> exists j: nat :: 2 <= j < i && c == Suffixed(base, j)
        decreases |taken| - |tried|
      {
        var c := Suffixed(base, i);
        assert c in taken;
        if c in tried {
          var j: nat :| 2 <= j < i && c == Suffixed(base, j);
          SuffixedInjective(base, i, j);
          assert false;
        }
        tried := tried + {c};
        SubsetNoLarger(tried, taken);
        forall j: nat | 2 <= j < i + 1
          ensures Suffixed(base, j) in taken
        {
          if j == i {
            assert Suffixed(base, j) == c;
          }
        }
        i := i + 1;
      }
      caption := Suffixed(base, i);
    }

    /**
     * addWidget: `instantiated` is whether creating the widget instance
     * succeeded; `defaultCaption` is the registry's caption for the widget.
     */
    method AddWidget(widgetName: string, defaultCaption: string, x0: int, y0: int, caption0: string,
                     instantiated: bool, contentsX: int) returns (r: Option<Node>)
      requires Valid()
      modifies this
      ensures Valid()
      ensures lines == old(lines) && links == old(links)
      ensures !instantiated ==> r.None? && widgets == old(widgets) && canSave == old(canSave)
      ensures instantiated ==> r.Some? && widgets == old(widgets) + [r.value] && canSave
      ensures instantiated ==> r.value.id !in old(Ids()) && r.value.widgetName == widgetName
      ensures instantiated ==> CaptionChoice(if caption0 == "" then defaultCaption else caption0, old(Captions()), r.value.caption)
      ensures instantiated && x0 != -1 && y0 != -1 ==> r.value.x == x0 && r.value.y == y0
      ensures instantiated && (x0 == -1 || y0 == -1) ==>
                r.value.y == 150 && forall w :: w in old(widgets) ==> r.value.x >= w.x + 101
    {
      if !instantiated {
        return None;
      }
      var x, y := x0, y0;
      if x == -1 || y == -1 {
        x, y := PlaceNewWidget(contentsX);
      }
      var caption := if caption0 == "" then defaultCaption else caption0;
      caption := UniqueCaption(caption);
      var node := Node(nextId, caption, x, y, widgetName);
      widgets := widgets + [node];
      nextId := nextId + 1;
      canSave := true;
      r := Some(node);
    }

    /** The loop of removeLine1: every signal between the two widgets is removed from the manager. */
    method UnlinkLine(src: WidgetId, dst: WidgetId)
      modifies this`links
      ensures forall s :: s in links <==> s in old(links) && (s.src, s.dst) != (src, dst)
    {
      var pending := Signals(src, dst);
      while pending != {}
        invariant forall s :: s in links <==>
                    s in old(links) && ((s.src, s.dst) != (src, dst) || (s.outName, s.inName) in pending)
        decreases pending
      {
        var p :| p in pending;
        links := links - {SignalLink(src, dst, p.0, p.1)};
        pending := pending - {p};
      }
    }

    /** removeLine1: drops the line's signals from the manager, then the line. */
    method RemoveLine1(line: Line)
      requires ValidExcept(line.outW, line.inW) && line in lines
      modifies this
      ensures Valid()
      ensures widgets == old(widgets) && nextId == old(nextId) && canSave
      ensures |lines| == |old(lines)| - 1
      ensures forall l :: l in lines <==> l in old(lines) && l != line
      ensures forall s :: s in links <==> s in old(links) && (s.src, s.dst) != (line.outW, line.inW)
      ensures line !in InLines(line.inW) && line !in OutLines(line.outW)
    {
      UnlinkLine(line.outW, line.inW);
      var k := FirstIndex(lines, (l: Line) => l == line);
      RemoveLineCore(widgets, lines, old(links), nextId, k, links);
      lines := RemoveAt(lines, k);
      canSave := true;
    }

    /** removeLine: removes the line from `src` to `dst` when there is one. */
    method RemoveLine(src: WidgetId, dst: WidgetId)
      requires ValidExcept(src, dst)
      modifies this
      ensures Valid()
      ensures widgets == old(widgets) && nextId == old(nextId)
      ensures forall l :: l in lines <==> l in old(lines) && (l.outW, l.inW) != (src, dst)
      ensures forall s :: s in links <==> s in old(links) && (s.src, s.dst) != (src, dst)
      ensures old(GetLine(src, dst)).Some? ==> canSave
      ensures old(GetLine(src, dst)).None? ==> lines == old(lines) && links == old(links) && canSave == old(canSave)
    {
      var line := GetLine(src, dst);
      if line.Some? {
        RemoveLine1(line.value);
      } else {
        assert LinePairs() - {(src, dst)} == LinePairs();
      }
    }

    /**
     * removeLink: removes one signal; the line goes when no signal from
     * `src` to `dst` remains.
     */
    method RemoveLink(src: WidgetId, dst: WidgetId, outName: string, inName: string)
      requires ValidExcept(src, dst)
      modifies this
      ensures Valid()
      ensures widgets == old(widgets) && nextId == old(nextId) && canSave
      ensures links == old(links) - {SignalLink(src, dst, outName, inName)}
      ensures (src, dst) in Edges(links) ==> lines == old(lines)
      ensures (src, dst) !in Edges(links) ==>
                forall l :: l in lines <==> l in old(lines) && (l.outW, l.inW) != (src, dst)
    {
      EdgesWithout(links, SignalLink(src, dst, outName, inName));
      links := links - {SignalLink(src, dst, outName, inName)};
      var otherSignals := (src, dst) in Edges(links);
      if !otherSignals {
        RemoveLine(src, dst);
      }
      canSave := true;
    }

    /**
     * addLink: first drops the links into the single input `inName` of `dst`
     * from the widget the receiver names, creates the line if `src` and `dst`
     * share no signal yet, then records the link, or takes it back when the
     * signal manager refuses it. Returns 1 on success and 0 otherwise.
     */
    method AddLink(src: WidgetId, dst: WidgetId, req: LinkRequest, enabled: bool) returns (r: int)
      requires Valid() && src in Ids() && dst in Ids()
      requires req.displaced.Some? ==> req.displaced.value in Ids()
      modifies this
      ensures Valid()
      ensures widgets == old(widgets) && nextId == old(nextId)
      ensures r == (if req.accepted then 1 else 0)
      ensures SignalLink(src, dst, req.outName, req.inName) in links <==> req.accepted
      ensures forall s :: s in links && s !in old(links) ==> s == SignalLink(src, dst, req.outName, req.inName)
      ensures forall s :: s in old(links) && s !in links ==>
                s == SignalLink(src, dst, req.outName, req.inName)
                || (req.displaced == Some(s.src) && s.dst == dst && s.inName == req.inName)
      ensures forall l :: l in lines && l !in old(lines) ==> l == Line(src, dst, enabled)
      ensures forall l :: l in old(lines) && l !in lines ==> l.inW == dst
      ensures req.displaced.None? && req.accepted ==>
                links == old(links) + {SignalLink(src, dst, req.outName, req.inName)}
                && lines == old(lines) + (if (src, dst) in old(LinePairs()) then [] else [Line(src, dst, enabled)])
    {
      var link := SignalLink(src, dst, req.outName, req.inName);
      if req.displaced.Some? {
        DropSingleInputLinks(req.displaced.value, dst, req.inName);
      }
      EnsureLine(src, dst, enabled);
      if req.accepted {
        RecordLink(link);
        r := 1;
      } else {
        RemoveLink(src, dst, req.outName, req.inName);
        r := 0;
      }
    }

    /**
     * The first part of addLink: removes every link from `d` into the input
     * `inName` of `dst`, and the line from `d` to `dst` if none is left.
     */
    method DropSingleInputLinks(d: WidgetId, dst: WidgetId, inName: string)
      requires Valid()
      modifies this
      ensures Valid()
      ensures widgets == old(widgets) && nextId == old(nextId)
      ensures forall s :: s in links <==> s in old(links) && !(s.src == d && s.dst == dst && s.inName == inName)
      ensures forall l :: l in lines <==> l in old(lines) && ((l.outW, l.inW) != (d, dst) || (d, dst) in Edges(links))
    {
      var existing := Signals(d, dst);
      while existing != {}
        invariant Valid() && widgets == old(widgets) && nextId == old(nextId)
        invariant forall s :: s in links <==>
                    s in old(links) && !(s.src == d && s.dst == dst && s.inName == inName && (s.outName, s.inName) !in existing)
        invariant forall l :: l in lines <==> l in old(lines) && ((l.outW, l.inW) != (d, dst) || (d, dst) in Edges(links))
        decreases existing
      {
        var p :| p in existing;
        if p.1 == inName {
          RemoveLink(d, dst, p.0, p.1);
        }
        existing := existing - {p};
      }
    }

    /** The middle of addLink: a line from `src` to `dst` is created unless one carries signals. */
    method EnsureLine(src: WidgetId, dst: WidgetId, enabled: bool)
      requires Valid() && src in Ids() && dst in Ids()
      modifies this
      ensures ValidExcept(src, dst) && (src, dst) in LinePairs()
      ensures widgets == old(widgets) && links == old(links) && nextId == old(nextId) && canSave == old(canSave)
      ensures lines == old(lines) + (if (src, dst) in old(LinePairs()) then [] else [Line(src, dst, enabled)])
    {
      if (src, dst) !in Edges(links) {
        AppendPairs(lines, Line(src, dst, enabled));
        lines := lines + [Line(src, dst, enabled)];
      }
    }

    /** The signal manager accepts a link whose line is in place. */
    method RecordLink(link: SignalLink)
      requires ValidExcept(link.src, link.dst) && (link.src, link.dst) in LinePairs()
      modifies this
      ensures Valid()
      ensures links == old(links) + {link}
      ensures widgets == old(widgets) && lines == old(lines) && nextId == old(nextId) && canSave == old(canSave)
    {
      EdgesWith(links, link);
      links := links + {link};
    }

    /** The end of removeWidget: the widget leaves the list once no line touches it. */
    method DropNode(id: WidgetId)
      requires Valid() && id in Ids()
      requires forall l :: l in lines ==> l.outW != id && l.inW != id
      modifies this
      ensures Valid()
      ensures lines == old(lines) && links == old(links) && nextId == old(nextId) && canSave
      ensures widgets == RemoveAt(old(widgets), IndexOfId(old(widgets), id))
      ensures Ids() == old(Ids()) - {id}
    {
      var k := IndexOfId(widgets, id);
      DropNodeCore(widgets, lines, links, nextId, k);
      widgets := RemoveAt(widgets, k);
      canSave := true;
    }

    /** removeWidget: removes the widget's incoming lines, then its outgoing ones, then the widget. */
    method RemoveWidget(w: Option<WidgetId>)
      requires Valid()
      requires w.Some? ==> w.value in Ids()
      modifies this
      ensures Valid()
      ensures nextId == old(nextId)
      ensures w.None? ==> widgets == old(widgets) && lines == old(lines) && links == old(links)
      ensures w.Some? ==> widgets == RemoveAt(old(widgets), IndexOfId(old(widgets), w.value)) && canSave
      ensures w.Some? ==> w.value !in Ids() && Ids() == old(Ids()) - {w.value}
      ensures forall l :: l in lines <==> l in old(lines) && (w.None? || (l.outW != w.value && l.inW != w.value))
      ensures forall s :: s in links <==> s in old(links) && (w.None? || (s.src != w.value && s.dst != w.value))
    {
      if w.None? {
        return;
      }
      var id := w.value;
      DropInLines(id);
      DropOutLines(id);
      DropNode(id);
    }

    /** The first loop of removeWidget. */
    method DropInLines(id: WidgetId)
      requires Valid()
      modifies this
      ensures Valid()
      ensures widgets == old(widgets) && nextId == old(nextId)
      ensures forall l :: l in lines <==> l in old(lines) && l.inW != id
      ensures forall s :: s in links <==> s in old(links) && s.dst != id
    {
      while InLines(id) != []
        invariant Valid() && widgets == old(widgets) && nextId == old(nextId)
        invariant forall l :: l in lines <==> l in old(lines) && (l.inW != id || l in InLines(id))
        invariant forall s :: s in links <==> s in old(links) && (s.dst != id || (s.src, s.dst) in LinePairs())
        decreases |lines|
      {
        RemoveLine1(InLines(id)[0]);
      }
    }

    /** The second loop of removeWidget. */
    method DropOutLines(id: WidgetId)
      requires Valid()
      modifies this
      ensures Valid()
      ensures widgets == old(widgets) && nextId == old(nextId)
      ensures forall l :: l in lines <==> l in old(lines) && l.outW != id
      ensures forall s :: s in links <==> s in old(links) && s.src != id
    {
      while OutLines(id) != []
        invariant Valid() && widgets == old(widgets) && nextId == old(nextId)
        invariant forall l :: l in lines <==> l in old(lines) && (l.outW != id || l in OutLines(id))
        invariant forall s :: s in links <==> s in old(links) && (s.src != id || (s.src, s.dst) in LinePairs())
        decreases |lines|
      {
        RemoveLine1(OutLines(id)[0]);
      }
    }

    /** clear: removes the widgets from the last to the first. */
    method Clear()
      requires Valid()
      modifies this
      ensures Valid()
      ensures widgets == [] && lines == [] && links == {}
      ensures nextId == old(nextId)
      ensures if old(widgets) == [] then canSave == old(canSave) else canSave
    {
      var snapshot := widgets;
      var k := |snapshot|;
      while k > 0
        invariant 0 <= k <= |snapshot|
        invariant Valid() && nextId == old(nextId)
        invariant widgets == snapshot[..k]
        invariant if k == |snapshot| then canSave == old(canSave) else canSave
        decreases k
      {
        k := k - 1;
        assert widgets[k] == snapshot[k];
        RemoveWidget(Some(snapshot[k].id));
        assert IndexOfId(snapshot[..k + 1], snapshot[k].id) == k;
      }
      EmptyDocument();
    }

    /** A valid document without widgets has no lines and no links. */
    lemma EmptyDocument()
      requires Valid() && widgets == []
      ensures lines == [] && links == {}
    {
      if lines != [] {
        FirstInSeq(lines);
        assert false;
      }
      if links != {} {
        assert false;
      }
    }

    /** The loop enableAllLines and disableAllLines share. */
    method SetAllLinesEnabled(flag: bool)
      requires Valid()
      modifies this
      ensures Valid()
      ensures widgets == old(widgets) && links == old(links) && nextId == old(nextId) && canSave
      ensures |lines| == |old(lines)|
      ensures forall k :: 0 <= k < |lines| ==> lines[k] == old(lines[k]).(enabled := flag)
    {
      var k := 0;
      while k < |lines|
        invariant 0 <= k <= |lines| == |old(lines)|
        invariant Valid() && widgets == old(widgets) && links == old(links) && nextId == old(nextId)
        invariant forall j :: 0 <= j < k ==> lines[j] == old(lines[j]).(enabled := flag)
        invariant forall j :: k <= j < |lines| ==> lines[j] == old(lines[j])
      {
        UpdatePairs(lines, k, lines[k].(enabled := flag));
        lines := lines[k := lines[k].(enabled := flag)];
        k := k + 1;
      }
      canSave := true;
    }

    method EnableAllLines()
      requires Valid()
      modifies this
      ensures Valid()
      ensures widgets == old(widgets) && links == old(links) && nextId == old(nextId) && canSave
      ensures |lines| == |old(lines)|
      ensures forall k :: 0 <= k < |lines| ==> lines[k] == old(lines[k]).(enabled := true)
    {
      SetAllLinesEnabled(true);
    }

    method DisableAllLines()
      requires Valid()
      modifies this
      ensures Valid()
      ensures widgets == old(widgets) && links == old(links) && nextId == old(nextId) && canSave
      ensures |lines| == |old(lines)|
      ensures forall k :: 0 <= k < |lines| ==> lines[k] == old(lines[k]).(enabled := false)
    {
      SetAllLinesEnabled(false);
    }

    /** addWidgetByFileName: the first registry entry with that file name. */
    method AddWidgetByFileName(registry: seq<RegistryEntry>, fileName: string, x: int, y: int, caption: string,
                               instantiated: bool, contentsX: int) returns (r: Option<Node>)
      requires Valid()
      modifies this
      ensures Valid()
      ensures lines == old(lines) && links == old(links)
      ensures !Registered(registry, fileName) ==> r.None? && widgets == old(widgets)
      ensures Registered(registry, fileName) && instantiated ==> r.Some?
      ensures r.Some? && caption != "" ==> CaptionChoice(caption, old(Captions()), r.value.caption)
      ensures r.Some? && x != -1 && y != -1 ==> r.value.x == x && r.value.y == y
      ensures r.Some? ==> widgets == old(widgets) + [r.value] && r.value.widgetName == fileName
      ensures r.Some? ==> exists e :: (e in registry && e.fileName == fileName &&
                CaptionChoice(if caption == "" then e.caption else caption, old(Captions()), r.value.caption))
    {
      var k := FirstIndex(registry, (e: RegistryEntry) => e.fileName == fileName);
      if k == |registry| {
        return None;
      }
      r := AddWidget(fileName, registry[k].caption, x, y, caption, instantiated, contentsX);
    }

    /** The signals between two widgets as a list (a line's getSignals). */
    method SignalList(src: WidgetId, dst: WidgetId) returns (sig: seq<SignalPair>)
      ensures forall p :: p in sig <==> p in Signals(src, dst)
      ensures |sig| == |Signals(src, dst)|
    {
      sig := [];
      var rest := Signals(src, dst);
      while rest != {}
        invariant rest <= Signals(src, dst)
        invariant forall p :: p in sig <==> p in Signals(src, dst) && p !in rest
        invariant |sig| + |rest| == |Signals(src, dst)|
        decreases rest
      {
        var p :| p in rest;
        sig := sig + [p];
        rest := rest - {p};
      }
    }

    /** The first loop of resetActiveSignals, over the signals to drop. */
    method UnlinkSignals(src: WidgetId, dst: WidgetId, removed: seq<SignalPair>)
      requires Valid()
      modifies this
      ensures Valid()
      ensures widgets == old(widgets) && nextId == old(nextId)
      ensures forall s :: s in links <==>
                s in old(links) && !(s.src == src && s.dst == dst && (s.outName, s.inName) in removed)
    {
      var k := 0;
      while k < |removed|
        invariant 0 <= k <= |removed|
        invariant Valid() && widgets == old(widgets) && nextId == old(nextId)
        invariant forall s :: s in links <==>
                    s in old(links) && !(s.src == src && s.dst == dst && (s.outName, s.inName) in removed[..k])
      {
        RemoveLink(src, dst, removed[k].0, removed[k].1);
        k := k + 1;
      }
      assert removed[..k] == removed;
    }

    /** One chosen pair of the second loop of resetActiveSignals, linked through addLink. */
    method LinkRequested(src: WidgetId, dst: WidgetId, req: LinkRequest, enabled: bool)
      requires Valid() && src in Ids() && dst in Ids()
      requires req.displaced.Some? ==> req.displaced.value in Ids()
      modifies this
      ensures Valid()
      ensures widgets == old(widgets) && nextId == old(nextId)
      ensures forall s :: s in links && s !in old(links) ==>
                s.src == src && s.dst == dst && (s.outName, s.inName) == (req.outName, req.inName)
      ensures Edges(links) <= old(Edges(links)) + {(src, dst)}
      ensures req.displaced.None? && req.accepted ==>
                Signals(src, dst) == old(Signals(src, dst)) + {(req.outName, req.inName)}
    {
      ghost var before := links;
      var _ := AddLink(src, dst, req, enabled);
      EdgesGrowth(before, links, (src, dst));
      if req.displaced.None? && req.accepted {
        SignalsWith(before, SignalLink(src, dst, req.outName, req.inName));
      }
    }

    /**
     * The second loop of resetActiveSignals: links every chosen pair that is
     * not among the signals kept.
     */
    method LinkChosen(src: WidgetId, dst: WidgetId, reqs: seq<LinkRequest>, kept: seq<SignalPair>, enabled: bool)
      requires Valid() && src in Ids() && dst in Ids() && DisplacedKnown(reqs, Ids())
      requires forall p :: p in kept ==> p in Signals(src, dst)
      modifies this
      ensures Valid()
      ensures widgets == old(widgets) && nextId == old(nextId)
      ensures forall s :: s in links && s !in old(links) ==>
                s.src == src && s.dst == dst && (s.outName, s.inName) in RequestPairs(reqs)
      ensures Edges(links) <= old(Edges(links)) + {(src, dst)}
      ensures Plain(reqs) ==> Signals(src, dst) == old(Signals(src, dst)) + set p | p in RequestPairs(reqs)
    {
      var newSignals := RequestPairs(reqs);
      var k := 0;
      while k < |reqs|
        invariant 0 <= k <= |reqs|
        invariant Valid() && widgets == old(widgets) && nextId == old(nextId)
        invariant forall s :: s in links && s !in old(links) ==>
                    s.src == src && s.dst == dst && (s.outName, s.inName) in newSignals
        invariant Edges(links) <= old(Edges(links)) + {(src, dst)}
        invariant Plain(reqs) ==>
                    Signals(src, dst) == old(Signals(src, dst)) + (set j | 0 <= j < k :: newSignals[j])
      {
        if newSignals[k] !in kept {
          LinkRequested(src, dst, reqs[k], enabled);
        }
        k := k + 1;
      }
      assert (set j | 0 <= j < k :: newSignals[j]) == set p | p in newSignals;
    }

    /**
     * resetActiveSignals with the removal pass it is evidently meant to run:
     * the signals of the line no longer chosen are unlinked, then the newly
     * chosen ones are linked.
     */
    method ResetActiveSignals(src: WidgetId, dst: WidgetId, dialog: Dialog, enabled: bool)
      requires Valid() && src in Ids() && dst in Ids()
      requires dialog.Chosen? ==> DisplacedKnown(dialog.requests, Ids())
      modifies this
      ensures Valid()
      ensures widgets == old(widgets) && nextId == old(nextId)
      ensures dialog.Refused? ==> lines == old(lines) && links == old(links) && canSave == old(canSave)
      ensures dialog.Chosen? ==> canSave
      ensures forall s :: s in links && s !in old(links) ==> s.src == src && s.dst == dst
      ensures Edges(links) <= old(Edges(links)) + {(src, dst)}
      ensures dialog.Chosen? ==>
                forall p :: p in old(Signals(src, dst)) && p !in RequestPairs(dialog.requests) ==> p !in Signals(src, dst)
      ensures dialog.Chosen? && Plain(dialog.requests) ==>
                Signals(src, dst) == set p | p in RequestPairs(dialog.requests)
    {
      if dialog.Refused? {
        return;
      }
      ReplaceSignals(src, dst, dialog.requests, enabled);
      canSave := true;
    }

    /** The chosen branch of resetActiveSignals: the removal pass, then the linking pass. */
    method ReplaceSignals(src: WidgetId, dst: WidgetId, reqs: seq<LinkRequest>, enabled: bool)
      requires Valid() && src in Ids() && dst in Ids() && DisplacedKnown(reqs, Ids())
      modifies this
      ensures Valid()
      ensures widgets == old(widgets) && nextId == old(nextId)
      ensures forall s :: s in links && s !in old(links) ==> s.src == src && s.dst == dst
      ensures Edges(links) <= old(Edges(links)) + {(src, dst)}
      ensures forall p :: p in old(Signals(src, dst)) && p !in RequestPairs(reqs) ==> p !in Signals(src, dst)
      ensures Plain(reqs) ==> Signals(src, dst) == set p | p in RequestPairs(reqs)
    {
      var newSignals := RequestPairs(reqs);
      var signals := SignalList(src, dst);
      var pass := RemovalPass(signals, newSignals);
      UnlinkSignals(src, dst, pass.0);
      assert Signals(src, dst) == set p | p in pass.1;
      LinkChosen(src, dst, reqs, pass.1, enabled);
    }

    /** The loop of addLine for a new line: every chosen pair goes through addLink. */
    method LinkAll(src: WidgetId, dst: WidgetId, reqs: seq<LinkRequest>, enabled: bool)
      requires Valid() && src in Ids() && dst in Ids() && DisplacedKnown(reqs, Ids())
      modifies this
      ensures Valid() && widgets == old(widgets) && nextId == old(nextId)
      ensures Edges(links) <= old(Edges(links)) + {(src, dst)}
      ensures forall l :: l in lines && l !in old(lines) ==> l == Line(src, dst, enabled)
      ensures Plain(reqs) && reqs != [] ==> (src, dst) in Edges(links)
    {
      var k := 0;
      while k < |reqs|
        invariant 0 <= k <= |reqs|
        invariant Valid() && widgets == old(widgets) && nextId == old(nextId)
        invariant Edges(links) <= old(Edges(links)) + {(src, dst)}
        invariant forall l :: l in lines && l !in old(lines) ==> l == Line(src, dst, enabled)
        invariant Plain(reqs) && k > 0 ==> (src, dst) in Edges(links)
      {
        ghost var before := links;
        var _ := AddLink(src, dst, reqs[k], enabled);
        EdgesGrowth(before, links, (src, dst));
        k := k + 1;
      }
    }

    /**
     * addLine: an existing line gets its signals reset; a connection that
     * would close a cycle is refused; otherwise the links chosen in the
     * dialog are added one by one. Returns the line, if one was made.
     */
    method AddLine(src: WidgetId, dst: WidgetId, enabled: bool, dialog: Dialog) returns (r: Option<Line>)
      requires Valid() && src in Ids() && dst in Ids()
      requires dialog.Chosen? ==> DisplacedKnown(dialog.requests, Ids())
      modifies this
      ensures Valid()
      ensures widgets == old(widgets) && nextId == old(nextId)
      ensures Edges(links) <= old(Edges(links)) + {(src, dst)}
      ensures Acyclic(old(Edges(links))) && src != dst ==> Acyclic(Edges(links))
      ensures old(GetLine(src, dst)).Some? ==> r.None?
      ensures old(GetLine(src, dst)).None? && old(ExistsPath(links, dst, src)) ==>
                r.None? && lines == old(lines) && links == old(links)
      ensures old(GetLine(src, dst)).None? && r.Some? ==> r.value == Line(src, dst, enabled) && r.value in lines
      ensures (old(GetLine(src, dst)).None? && !old(ExistsPath(links, dst, src)) && dialog.Chosen?
               && Plain(dialog.requests) && dialog.requests != []) ==> r == Some(Line(src, dst, enabled))
    {
      ghost var E0 := Edges(links);
      var existing := GetLine(src, dst);
      if existing.Some? {
        ResetActiveSignals(src, dst, dialog, enabled);
        if Acyclic(E0) {
          SubgraphAcyclic(E0, Edges(links));
        }
        return None;
      }
      if ExistsPath(links, dst, src) {
        return None;
      }
      if dialog.Refused? {
        return None;
      }
      LinkAll(src, dst, dialog.requests, enabled);
      r := GetLine(src, dst);
      canSave := true;
      if Acyclic(E0) && src != dst {
        ExistsPathIsPath(old(links), dst, src);
        AddEdgeKeepsAcyclic(E0, src, dst);
        SubgraphAcyclic(E0 + {(src, dst)}, Edges(links));
      }
    }

    /**
     * save: one record per widget and one per line, in document order; each
     * channel names its widgets by caption and lists the line's signals.
     */
    method Save() returns (rec: SchemaRecord)
      requires Valid()
      modifies this
      ensures !canSave
      ensures widgets == old(widgets) && lines == old(lines) && links == old(links) && nextId == old(nextId)
      ensures |rec.widgets| == |widgets|
      ensures forall k :: 0 <= k < |widgets| ==> rec.widgets[k] == WidgetRecordOf(widgets[k])
      ensures |rec.channels| == |lines|
      ensures forall k :: 0 <= k < |lines| ==> DescribesLine(widgets, links, rec.channels[k], lines[k])
    {
      var ws := WidgetRecords();
      var cs := ChannelRecords();
      rec := SchemaRecord(ws, cs);
      canSave := false;
    }

    /** The widget loop of save. */
    method WidgetRecords() returns (ws: seq<WidgetRecord>)
      ensures |ws| == |widgets|
      ensures forall k :: 0 <= k < |widgets| ==> ws[k] == WidgetRecordOf(widgets[k])
    {
      ws := [];
      for k := 0 to |widgets|
        invariant |ws| == k
        invariant forall j :: 0 <= j < k ==> ws[j] == WidgetRecordOf(widgets[j])
      {
        ws := ws + [WidgetRecordOf(widgets[k])];
      }
    }

    /** The channel loop of save. */
    method ChannelRecords() returns (cs: seq<ChannelRecord>)
      ensures |cs| == |lines|
      ensures forall k :: 0 <= k < |lines| ==> DescribesLine(widgets, links, cs[k], lines[k])
    {
      cs := [];
      for k := 0 to |lines|
        invariant |cs| == k
        invariant forall j :: 0 <= j < k ==> DescribesLine(widgets, links, cs[j], lines[j])
      {
        var l := lines[k];
        var sig := SignalList(l.outW, l.inW);
        cs := cs + [ChannelRecord(CaptionOfIn(widgets, l.outW), CaptionOfIn(widgets, l.inW), l.enabled, sig)];
      }
    }

    /** The widget loop of loadDocument; every widget instance can be created. */
    method LoadWidgets(recs: seq<WidgetRecord>, registry: seq<RegistryEntry>, contentsX: int)
      requires Valid()
      modifies this
      ensures Valid()
      ensures lines == old(lines) && links == old(links)
      ensures |widgets| >= |old(widgets)| && widgets[..|old(widgets)|] == old(widgets)
      ensures Reproducible(recs, registry, old(Captions())) ==>
                |widgets| == |old(widgets)| + |recs|
                && forall k :: 0 <= k < |recs| ==> WidgetRecordOf(widgets[|old(widgets)| + k]) == recs[k]
    {
      var k := 0;
      while k < |recs|
        invariant 0 <= k <= |recs|
        invariant Valid() && lines == old(lines) && links == old(links)
        invariant |widgets| >= |old(widgets)| && widgets[..|old(widgets)|] == old(widgets)
        invariant Reproducible(recs, registry, old(Captions())) ==>
                    |widgets| == |old(widgets)| + k
                    && (forall j :: 0 <= j < k ==> WidgetRecordOf(widgets[|old(widgets)| + j]) == recs[j])
                    && Captions() == old(Captions()) + CaptionsOfRecords(recs[..k])
      {
        var r := recs[k];
        ghost var before := widgets;
        var added := AddWidgetByFileName(registry, r.widgetName, r.xPos, r.yPos, r.caption, true, contentsX);
        if Reproducible(recs, registry, old(Captions())) {
          assert recs[..k + 1] == recs[..k] + [r];
          assert r.caption !in CaptionsOf(before);
          CaptionsAppend(before, added.value);
        }
        k := k + 1;
      }
    }

    /** The signals of one channel record, linked when both captions name widgets. */
    method LoadChannel(c: ChannelRecord)
      requires Valid()
      modifies this
      ensures Valid()
      ensures widgets == old(widgets) && nextId == old(nextId)
      ensures links == old(links) + ChannelLinks(widgets, c)
      ensures lines == LoadStep(widgets, old(lines), c)
    {
      var inW := GetWidgetByCaption(c.inCaption);
      var outW := GetWidgetByCaption(c.outCaption);
      if inW.None? || outW.None? {
        LoadStepUnresolved(widgets, lines, c);
        return;
      }
      var src, dst := outW.value.id, inW.value.id;
      LoadStepResolved(widgets, lines, c, outW.value, inW.value);
      assert ChannelLinks(widgets, c) == LinksFor(src, dst, c.signals);
      LoadSignals(src, dst, c.signals, c.enabled);
    }

    /** The signals of one channel record, each linked in turn as loadDocument does. */
    method LoadSignals(src: WidgetId, dst: WidgetId, signals: seq<SignalPair>, enabled: bool)
      requires Valid() && src in Ids() && dst in Ids()
      modifies this
      ensures Valid() && widgets == old(widgets) && nextId == old(nextId)
      ensures links == old(links) + LinksFor(src, dst, signals)
      ensures lines == old(lines) + (if signals == [] || (src, dst) in old(LinePairs()) then [] else [Line(src, dst, enabled)])
    {
      ghost var drawn := lines + (if (src, dst) in LinePairs() then [] else [Line(src, dst, enabled)]);
      var k := 0;
      while k < |signals|
        invariant 0 <= k <= |signals|
        invariant Valid() && widgets == old(widgets) && nextId == old(nextId)
        invariant links == old(links) + LinksFor(src, dst, signals[..k])
        invariant k == 0 ==> lines == old(lines)
        invariant k > 0 ==> lines == drawn && (src, dst) in LinePairs()
      {
        LoadSignal(src, dst, signals[k], enabled);
        LinksForSnoc(src, dst, signals, k);
        k := k + 1;
      }
      assert signals[..k] == signals;
    }

    /** One signal of a channel record, linked as a plain request the signal manager accepts. */
    method LoadSignal(src: WidgetId, dst: WidgetId, p: SignalPair, enabled: bool)
      requires Valid() && src in Ids() && dst in Ids()
      modifies this
      ensures Valid() && widgets == old(widgets) && nextId == old(nextId)
      ensures links == old(links) + {SignalLink(src, dst, p.0, p.1)}
      ensures lines == old(lines) + (if (src, dst) in old(LinePairs()) then [] else [Line(src, dst, enabled)])
      ensures (src, dst) in LinePairs()
    {
      var _ := AddLink(src, dst, LinkRequest(p.0, p.1, None, true), enabled);
      assert (src, dst) in Edges(links);
    }

    /** The channel loop of loadDocument; the signal manager accepts every link. */
    method LoadChannels(chans: seq<ChannelRecord>)
      requires Valid()
      modifies this
      ensures Valid()
      ensures widgets == old(widgets) && nextId == old(nextId)
      ensures links == old(links) + ChannelsLinks(widgets, chans)
      ensures lines == LoadedLines(widgets, chans, old(lines))
    {
      var k := 0;
      assert chans[..k] == [];
      while k < |chans|
        invariant 0 <= k <= |chans|
        invariant Valid() && widgets == old(widgets) && nextId == old(nextId)
        invariant links == old(links) + ChannelsLinks(widgets, chans[..k])
        invariant lines == LoadedLines(widgets, chans[..k], old(lines))
      {
        LoadChannel(chans[k]);
        ChannelsLinksSnoc(widgets, chans, k);
        LoadedLinesSnoc(widgets, chans, old(lines), k);
        k := k + 1;
      }
      assert chans[..k] == chans;
    }

    /** loadDocument, after the file has been parsed into its records. */
    method LoadDocument(rec: SchemaRecord, registry: seq<RegistryEntry>, contentsX: int)
      requires Valid()
      modifies this
      ensures Valid()
      ensures !canSave
      ensures |widgets| >= |old(widgets)| && widgets[..|old(widgets)|] == old(widgets)
      ensures Reproducible(rec.widgets, registry, old(Captions())) ==>
                |widgets| == |old(widgets)| + |rec.widgets|
                && forall k :: 0 <= k < |rec.widgets| ==> WidgetRecordOf(widgets[|old(widgets)| + k]) == rec.widgets[k]
      ensures links == old(links) + ChannelsLinks(widgets, rec.channels)
      ensures lines == LoadedLines(widgets, rec.channels, old(lines))
    {
      LoadWidgets(rec.widgets, registry, contentsX);
      LoadChannels(rec.channels);
      canSave := false;
    }
  }

  /**
   * What a document saved from the widgets, lines and links `dws`, `dls`,
   * `dlinks` and loaded into an empty document as `ews`, `els`, `elinks`
   * holds: the same widget records, the same links by caption and one line
   * per saved line with the same flag between widgets of the same captions.
   */
  lemma SavedThenLoaded(dws: seq<Node>, dls: seq<Line>, dlinks: set<SignalLink>, nextId: WidgetId,
                        rec: SchemaRecord, ews: seq<Node>, els: seq<Line>, elinks: set<SignalLink>)
    requires CoreOf(dws, dls, dlinks, nextId) && PairsOf(dls) == Edges(dlinks)
    requires |rec.widgets| == |dws| && forall k :: 0 <= k < |dws| ==> rec.widgets[k] == WidgetRecordOf(dws[k])
    requires |rec.channels| == |dls| && forall k :: 0 <= k < |dls| ==> DescribesLine(dws, dlinks, rec.channels[k], dls[k])
    requires DistinctNodes(ews) && |ews| == |rec.widgets|
    requires forall k :: 0 <= k < |rec.widgets| ==> WidgetRecordOf(ews[k]) == rec.widgets[k]
    requires elinks == ChannelsLinks(ews, rec.channels) && els == LoadedLines(ews, rec.channels, [])
    ensures |ews| == |dws| && forall k :: 0 <= k < |dws| ==> WidgetRecordOf(ews[k]) == WidgetRecordOf(dws[k])
    ensures CaptionLinksOf(ews, elinks) == CaptionLinksOf(dws, dlinks)
    ensures |els| == |dls| && forall k :: 0 <= k < |dls| ==> SameLine(ews, els[k], dws, dls[k])
  {
    assert forall k :: 0 <= k < |dws| ==> ews[k].caption == dws[k].caption;
    assert SavedRecords(dws, dls, dlinks, nextId, rec.channels, ews);
    RoundTripRecords(dws, dls, dlinks, nextId, rec.channels, ews);
  }

  /** Records loaded from index `base` == 0 of `ws` are the records at the same indices. */
  lemma RecordsFromStart(ws: seq<Node>, recs: seq<WidgetRecord>, base: nat)
    requires base == 0 && |ws| == base + |recs|
    requires forall k :: 0 <= k < |recs| ==> WidgetRecordOf(ws[base + k]) == recs[k]
    ensures forall k :: 0 <= k < |recs| ==> WidgetRecordOf(ws[k]) == recs[k]
  {
    forall k | 0 <= k < |recs|
      ensures WidgetRecordOf(ws[k]) == recs[k]
    {
      assert ws[base + k] == ws[k];
    }
  }

  /**
   * Saving a document and loading the records into a new document gives the
   * same widgets in the same order and the same links between captions,
   * provided every widget has a registered kind, a non-empty caption and an
   * explicit position.
   */
  method SaveLoadRoundTrip(d: SchemaDoc, registry: seq<RegistryEntry>, contentsX: int) returns (e: SchemaDoc)
    requires d.Valid()
    requires forall w :: w in d.widgets ==>
               w.caption != "" && w.x != -1 && w.y != -1 && Registered(registry, w.widgetName)
    modifies d
    ensures fresh(e) && e.Valid()
    ensures d.widgets == old(d.widgets) && d.lines == old(d.lines) && d.links == old(d.links)
    ensures |e.widgets| == |d.widgets|
    ensures forall k :: 0 <= k < |d.widgets| ==> WidgetRecordOf(e.widgets[k]) == WidgetRecordOf(d.widgets[k])
    ensures CaptionLinksOf(e.widgets, e.links) == CaptionLinksOf(d.widgets, d.links)
    ensures |e.lines| == |d.lines| && forall k :: 0 <= k < |d.lines| ==> SameLine(e.widgets, e.lines[k], d.widgets, d.lines[k])
  {
    ghost var dws, dls, dlinks, dn := d.widgets, d.lines, d.links, d.nextId;
    assert CoreOf(dws, dls, dlinks, dn) && PairsOf(dls) == Edges(dlinks);
    var rec := d.Save();
    e := new SchemaDoc();
    assert e.Captions() == {};
    ghost var reproducible := Reproducible(rec.widgets, registry, e.Captions());
    assert reproducible;
    e.LoadDocument(rec, registry, contentsX);
    ghost var ews, els, elinks := e.widgets, e.lines, e.links;
    assert DistinctNodes(ews) && els == LoadedLines(ews, rec.channels, []);
    assert elinks == ChannelsLinks(ews, rec.channels);
    RecordsFromStart(ews, rec.widgets, 0);
    SavedThenLoaded(dws, dls, dlinks, dn, rec, ews, els, elinks);
  }
}
