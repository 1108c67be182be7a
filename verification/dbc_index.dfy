/** Building a network from the syntax tree of a DBC file: attribute values, value descriptions and
    comments are indexed once in nested maps, and each object then takes what the maps hold for it. */
module DbcIndex {
  import opened Wrappers

  /** What an attribute value, a description or a comment is about. */
  datatype Target = Network | Node(name: string) | Message(id: nat) | Signal(message: nat, signal: string) |
                    EnvVar(variable: string)

  /** An entry of one of the tree's flat lists. */
  datatype Entry<T> = Entry(target: Target, content: T)

  datatype Attribute = Attribute(name: string, value: string)

  datatype Description = Description(value: int, text: string)

  datatype GMessage = GMessage(id: nat, signals: seq<string>)

  datatype Tree = Tree(nodes: seq<string>, messages: seq<GMessage>, variables: seq<string>,
                       attributes: seq<Entry<Attribute>>, descriptions: seq<Entry<seq<Description>>>,
                       comments: seq<Entry<string>>)

  // ----- the linear scans -----

  /** The contents of the entries for a target, in their order. */
  function ScanAll<T>(entries: seq<Entry<T>>, t: Target): seq<T> {
    if entries == [] then []
    else ScanAll(entries[..|entries| - 1], t) +
         (var e := entries[|entries| - 1]; if e.target == t then [e.content] else [])
  }

  /** The position of the last entry for a target. */
  function ScanLast<T>(entries: seq<Entry<T>>, t: Target): Option<nat> {
    if entries == [] then None
    else if entries[|entries| - 1].target == t then Some(|entries| - 1)
    else ScanLast(entries[..|entries| - 1], t)
  }

  lemma {:induction false} LastIsLast<T>(entries: seq<Entry<T>>, t: Target)
    ensures match ScanLast(entries, t)
            case None => forall i :: 0 <= i < |entries| ==> entries[i].target != t
            case Some(k) => k < |entries| && entries[k].target == t &&
                            forall i :: k < i < |entries| ==> entries[i].target != t
    decreases |entries|
  {
    if entries != [] {
      var n := |entries| - 1;
      LastIsLast(entries[..n], t);
      assert forall i :: 0 <= i < n ==> entries[..n][i] == entries[i];
    }
  }

  /** The positions of the entries for a target. */
  function Positions<T>(entries: seq<Entry<T>>, t: Target): (r: seq<nat>)
    ensures forall i :: 0 <= i < |r| ==> r[i] < |entries|
  {
    if entries == [] then []
    else Positions(entries[..|entries| - 1], t) +
         (if entries[|entries| - 1].target == t then [|entries| - 1] else [])
  }

  function ContentsAt<T>(entries: seq<Entry<T>>, at: seq<nat>): seq<T>
    requires forall i :: 0 <= i < |at| ==> at[i] < |entries|
  {
    seq(|at|, i requires 0 <= i < |at| => entries[at[i]].content)
  }

  /** Following the positions gives what the scan gives. */
  lemma {:induction false} PositionsScan<T>(entries: seq<Entry<T>>, t: Target)
    ensures ContentsAt(entries, Positions(entries, t)) == ScanAll(entries, t)
    decreases |entries|
  {
    if entries != [] {
      var n := |entries| - 1;
      PositionsScan(entries[..n], t);
      var before := Positions(entries[..n], t);
      assert ContentsAt(entries, before) == ContentsAt(entries[..n], before);
    }
  }

  function LastContent<T>(entries: seq<Entry<T>>, t: Target, none: T): T {
    var k := ScanLast(entries, t);
    LastIsLast(entries, t);
    if k.None? then none else entries[k.value].content
  }

  // ----- the network -----

  datatype BuiltNode = BuiltNode(name: string, comment: string, attributes: seq<Attribute>)

  datatype BuiltSignal = BuiltSignal(name: string, attributes: seq<Attribute>, descriptions: seq<Description>,
                                     comment: string)

  datatype BuiltMessage = BuiltMessage(id: nat, signals: seq<BuiltSignal>, attributes: seq<Attribute>, comment: string)

  datatype BuiltVariable = BuiltVariable(name: string, descriptions: seq<Description>, attributes: seq<Attribute>,
                                         comment: string)

  datatype BuiltNetwork = BuiltNetwork(nodes: seq<BuiltNode>, messages: seq<BuiltMessage>,
                                       variables: seq<BuiltVariable>, attributes: seq<Attribute>, comment: string)

  /** The grammar has descriptions of signals and environment variables only. */
  predicate Parsed(tree: Tree) {
    forall d :: d in tree.descriptions ==> d.target.Signal? || d.target.EnvVar?
  }

  /** The network as linear scans of the tree would build it. */
  function Scanned(tree: Tree): BuiltNetwork {
    BuiltNetwork(ScannedNodes(tree, tree.nodes), ScannedMessages(tree, tree.messages),
                 ScannedVariables(tree, tree.variables), ScanAll(tree.attributes, Network),
                 LastContent(tree.comments, Network, ""))
  }

  function ScannedNodes(tree: Tree, names: seq<string>): seq<BuiltNode> {
    seq(|names|, i requires 0 <= i < |names| => ScannedNode(tree, names[i]))
  }

  function ScannedMessages(tree: Tree, messages: seq<GMessage>): seq<BuiltMessage> {
    seq(|messages|, i requires 0 <= i < |messages| => ScannedMessage(tree, messages[i]))
  }

  function ScannedSignals(tree: Tree, id: nat, names: seq<string>): seq<BuiltSignal> {
    seq(|names|, i requires 0 <= i < |names| => ScannedSignal(tree, id, names[i]))
  }

  function ScannedVariables(tree: Tree, names: seq<string>): seq<BuiltVariable> {
    seq(|names|, i requires 0 <= i < |names| => ScannedVariable(tree, names[i]))
  }

  function ScannedNode(tree: Tree, name: string): BuiltNode {
    BuiltNode(name, LastContent(tree.comments, Node(name), ""), ScanAll(tree.attributes, Node(name)))
  }

  function ScannedSignal(tree: Tree, id: nat, name: string): BuiltSignal {
    BuiltSignal(name, ScanAll(tree.attributes, Signal(id, name)), LastContent(tree.descriptions, Signal(id, name), []),
                LastContent(tree.comments, Signal(id, name), ""))
  }

  function ScannedMessage(tree: Tree, m: GMessage): BuiltMessage {
    BuiltMessage(m.id, ScannedSignals(tree, m.id, m.signals),
                 ScanAll(tree.attributes, Message(m.id)), LastContent(tree.comments, Message(m.id), ""))
  }

  function ScannedVariable(tree: Tree, name: string): BuiltVariable {
    BuiltVariable(name, LastContent(tree.descriptions, EnvVar(name), []), ScanAll(tree.attributes, EnvVar(name)),
                  LastContent(tree.comments, EnvVar(name), ""))
  }

  // ----- what belongs to an object -----

  /** x is the content of the last entry about the object, or none if there is no such entry. */
  predicate IsLast<T(==)>(x: T, entries: seq<Entry<T>>, t: Target, none: T) {
    (x == none && forall i :: 0 <= i < |entries| ==> entries[i].target != t) ||
    exists k :: 0 <= k < |entries| && entries[k].target == t && entries[k].content == x &&
                forall i :: k < i < |entries| ==> entries[i].target != t
  }

  /** xs are the contents of all entries about the object, in their order. */
  ghost predicate AreAll<T>(xs: seq<T>, entries: seq<Entry<T>>, t: Target) {
    exists at: seq<nat> :: ArePositions(at, entries, t) && |at| == |xs| &&
      forall i :: 0 <= i < |at| ==> entries[at[i]].content == xs[i]
  }

  predicate ArePositions<T>(at: seq<nat>, entries: seq<Entry<T>>, t: Target) {
    (forall i, j :: 0 <= i < j < |at| ==> at[i] < at[j]) &&
    (forall i :: 0 <= i < |at| ==> at[i] < |entries| && entries[at[i]].target == t) &&
    forall k :: 0 <= k < |entries| && entries[k].target == t ==> k in at
  }

  ghost predicate OfNode(tree: Tree, x: BuiltNode, name: string) {
    x.name == name && IsLast(x.comment, tree.comments, Node(name), "") &&
    AreAll(x.attributes, tree.attributes, Node(name))
  }

  ghost predicate OfSignal(tree: Tree, x: BuiltSignal, id: nat, name: string) {
    x.name == name && IsLast(x.comment, tree.comments, Signal(id, name), "") &&
    IsLast(x.descriptions, tree.descriptions, Signal(id, name), []) &&
    AreAll(x.attributes, tree.attributes, Signal(id, name))
  }

  ghost predicate OfMessage(tree: Tree, x: BuiltMessage, m: GMessage) {
    x.id == m.id && IsLast(x.comment, tree.comments, Message(m.id), "") &&
    AreAll(x.attributes, tree.attributes, Message(m.id)) && |x.signals| == |m.signals| &&
    forall i :: 0 <= i < |m.signals| ==> OfSignal(tree, x.signals[i], m.id, m.signals[i])
  }

  ghost predicate OfVariable(tree: Tree, x: BuiltVariable, name: string) {
    x.name == name && IsLast(x.comment, tree.comments, EnvVar(name), "") &&
    IsLast(x.descriptions, tree.descriptions, EnvVar(name), []) &&
    AreAll(x.attributes, tree.attributes, EnvVar(name))
  }

  /** The network has the tree's objects in their order, each with all its attributes and with its last
      comment and descriptions. */
  ghost predicate OfTree(tree: Tree, n: BuiltNetwork) {
    IsLast(n.comment, tree.comments, Network, "") && AreAll(n.attributes, tree.attributes, Network) &&
    |n.nodes| == |tree.nodes| && |n.messages| == |tree.messages| && |n.variables| == |tree.variables| &&
    (forall i :: 0 <= i < |tree.nodes| ==> OfNode(tree, n.nodes[i], tree.nodes[i])) &&
    (forall i :: 0 <= i < |tree.messages| ==> OfMessage(tree, n.messages[i], tree.messages[i])) &&
    forall i :: 0 <= i < |tree.variables| ==> OfVariable(tree, n.variables[i], tree.variables[i])
  }

  lemma LastContentIsLast<T>(entries: seq<Entry<T>>, t: Target, none: T)
    ensures IsLast(LastContent(entries, t, none), entries, t, none)
  {
    LastIsLast(entries, t);
  }

  lemma {:induction false} PositionsAre<T>(entries: seq<Entry<T>>, t: Target)
    ensures ArePositions(Positions(entries, t), entries, t)
    decreases |entries|
  {
    if entries != [] {
      var n := |entries| - 1;
      PositionsAre(entries[..n], t);
      assert forall k :: 0 <= k < n ==> entries[..n][k] == entries[k];
    }
  }

  lemma ScanAllAreAll<T>(entries: seq<Entry<T>>, t: Target)
    ensures AreAll(ScanAll(entries, t), entries, t)
  {
    PositionsAre(entries, t);
    PositionsScan(entries, t);
    var at := Positions(entries, t);
    assert forall i :: 0 <= i < |at| ==> entries[at[i]].content == ContentsAt(entries, at)[i];
  }

  lemma SignalsAreOfMessage(tree: Tree, m: GMessage)
    ensures OfMessage(tree, ScannedMessage(tree, m), m)
  {
    hide IsLast, AreAll, ScanAll, LastContent;
    LastContentIsLast(tree.comments, Message(m.id), "");
    ScanAllAreAll(tree.attributes, Message(m.id));
    forall i | 0 <= i < |m.signals|
      ensures OfSignal(tree, ScannedSignals(tree, m.id, m.signals)[i], m.id, m.signals[i])
    {
      var t := Signal(m.id, m.signals[i]);
      LastContentIsLast(tree.comments, t, "");
      LastContentIsLast(tree.descriptions, t, []);
      ScanAllAreAll(tree.attributes, t);
    }
  }

  /** The scanned network gives each object what belongs to it. */
  lemma ScannedIsOfTree(tree: Tree)
    ensures OfTree(tree, Scanned(tree))
  {
    hide IsLast, AreAll, ScanAll, LastContent, ScannedMessage, OfMessage;
    LastContentIsLast(tree.comments, Network, "");
    ScanAllAreAll(tree.attributes, Network);
    forall i | 0 <= i < |tree.nodes|
      ensures OfNode(tree, Scanned(tree).nodes[i], tree.nodes[i])
    {
      LastContentIsLast(tree.comments, Node(tree.nodes[i]), "");
      ScanAllAreAll(tree.attributes, Node(tree.nodes[i]));
    }
    forall i | 0 <= i < |tree.messages|
      ensures OfMessage(tree, Scanned(tree).messages[i], tree.messages[i])
    {
      SignalsAreOfMessage(tree, tree.messages[i]);
    }
    forall i | 0 <= i < |tree.variables|
      ensures OfVariable(tree, Scanned(tree).variables[i], tree.variables[i])
    {
      LastContentIsLast(tree.comments, EnvVar(tree.variables[i]), "");
      LastContentIsLast(tree.descriptions, EnvVar(tree.variables[i]), []);
      ScanAllAreAll(tree.attributes, EnvVar(tree.variables[i]));
    }
  }

  // ----- every attribute in its place -----

  /** The objects of a tree, in the order in which the network lists them. */
  function Objects(tree: Tree): seq<Target> {
    [Network] + NodeObjects(tree.nodes) + MessageObjects(tree.messages) + EnvVarObjects(tree.variables)
  }

  function NodeObjects(names: seq<string>): seq<Target> {
    seq(|names|, i requires 0 <= i < |names| => Node(names[i]))
  }

  function SignalObjects(id: nat, names: seq<string>): seq<Target> {
    seq(|names|, i requires 0 <= i < |names| => Signal(id, names[i]))
  }

  function EnvVarObjects(names: seq<string>): seq<Target> {
    seq(|names|, i requires 0 <= i < |names| => EnvVar(names[i]))
  }

  function MessageObjects(messages: seq<GMessage>): seq<Target> {
    if messages == [] then []
    else
      var m := messages[0];
      [Message(m.id)] + SignalObjects(m.id, m.signals) + MessageObjects(messages[1..])
  }

  /** The attribute lists of the objects, one after the other. */
  function Collected(objects: seq<Target>, entries: seq<Entry<Attribute>>): seq<Attribute> {
    if objects == [] then []
    else ScanAll(entries, objects[0]) + Collected(objects[1..], entries)
  }

  function Times(objects: seq<Target>, t: Target): nat {
    if objects == [] then 0 else (if objects[0] == t then 1 else 0) + Times(objects[1..], t)
  }

  /** How often an attribute is due: once for each entry that holds it and object it is about. */
  function Due(objects: seq<Target>, entries: seq<Entry<Attribute>>, a: Attribute): nat {
    if entries == [] then 0
    else
      var e := entries[|entries| - 1];
      Due(objects, entries[..|entries| - 1], a) + (if e.content == a then Times(objects, e.target) else 0)
  }

  lemma {:induction false} OneMoreEntry(objects: seq<Target>, entries: seq<Entry<Attribute>>, e: Entry<Attribute>,
                                        a: Attribute)
    ensures multiset(Collected(objects, entries + [e]))[a] ==
            multiset(Collected(objects, entries))[a] + (if e.content == a then Times(objects, e.target) else 0)
    decreases |objects|
  {
    if objects != [] {
      OneMoreEntry(objects[1..], entries, e, a);
      assert (entries + [e])[..|entries|] == entries;
    }
  }

  lemma {:induction false} CollectedFromNothing(objects: seq<Target>)
    ensures Collected(objects, []) == []
    decreases |objects|
  {
    if objects != [] { CollectedFromNothing(objects[1..]); }
  }

  /** The objects' lists together hold every attribute as often as it is due. */
  lemma {:induction false} CollectedIsDue(objects: seq<Target>, entries: seq<Entry<Attribute>>, a: Attribute)
    ensures multiset(Collected(objects, entries))[a] == Due(objects, entries, a)
    decreases |entries|
  {
    hide Collected, Times;
    if entries == [] {
      CollectedFromNothing(objects);
    } else {
      var n := |entries| - 1;
      CollectedIsDue(objects, entries[..n], a);
      OneMoreEntry(objects, entries[..n], entries[n], a);
      assert entries[..n] + [entries[n]] == entries;
    }
  }

  predicate Distinct(objects: seq<Target>) {
    forall i, j :: 0 <= i < j < |objects| ==> objects[i] != objects[j]
  }

  lemma {:induction false} DistinctOnce(objects: seq<Target>, t: Target)
    requires Distinct(objects)
    ensures Times(objects, t) == if t in objects then 1 else 0
    decreases |objects|
  {
    if objects != [] {
      DistinctOnce(objects[1..], t);
      assert objects == [objects[0]] + objects[1..];
    }
  }

  /** The contents of the entries about the objects. */
  function About(objects: seq<Target>, entries: seq<Entry<Attribute>>): seq<Attribute> {
    if entries == [] then []
    else
      var e := entries[|entries| - 1];
      About(objects, entries[..|entries| - 1]) + (if e.target in objects then [e.content] else [])
  }

  lemma {:induction false} DueOnce(objects: seq<Target>, entries: seq<Entry<Attribute>>, a: Attribute)
    requires Distinct(objects)
    ensures Due(objects, entries, a) == multiset(About(objects, entries))[a]
    decreases |entries|
  {
    if entries != [] {
      var n := |entries| - 1;
      DueOnce(objects, entries[..n], a);
      DistinctOnce(objects, entries[n].target);
    }
  }

  /** The attributes as the network lists them. */
  function Listed(n: BuiltNetwork): seq<Attribute> {
    n.attributes + ListedNodes(n.nodes) + ListedMessages(n.messages) + ListedVariables(n.variables)
  }

  function ListedNodes(nodes: seq<BuiltNode>): seq<Attribute> {
    if nodes == [] then [] else nodes[0].attributes + ListedNodes(nodes[1..])
  }

  function ListedSignals(signals: seq<BuiltSignal>): seq<Attribute> {
    if signals == [] then [] else signals[0].attributes + ListedSignals(signals[1..])
  }

  function ListedMessages(messages: seq<BuiltMessage>): seq<Attribute> {
    if messages == [] then []
    else messages[0].attributes + ListedSignals(messages[0].signals) + ListedMessages(messages[1..])
  }

  function ListedVariables(variables: seq<BuiltVariable>): seq<Attribute> {
    if variables == [] then [] else variables[0].attributes + ListedVariables(variables[1..])
  }

  /** The network lists the attributes object by object, in the order of the objects. */
  lemma ListedIsCollected(tree: Tree)
    ensures Listed(Scanned(tree)) == Collected(Objects(tree), tree.attributes)
  {
    hide ScanAll, LastContent;
    var es := tree.attributes;
    var nodes := NodeObjects(tree.nodes);
    var variables := EnvVarObjects(tree.variables);
    CollectedAppends([Network] + nodes + MessageObjects(tree.messages), variables, es);
    CollectedAppends([Network] + nodes, MessageObjects(tree.messages), es);
    CollectedAppends([Network], nodes, es);
    NodesListed(tree, tree.nodes);
    MessagesListed(tree, tree.messages);
    VariablesListed(tree, tree.variables);
    assert Collected([Network], es) == ScanAll(es, Network) by { OneObject(Network, es); }
  }

  lemma OneObject(t: Target, entries: seq<Entry<Attribute>>)
    ensures Collected([t], entries) == ScanAll(entries, t)
  {
    assert [t][1..] == [];
  }

  lemma {:induction false} NodesListed(tree: Tree, names: seq<string>)
    ensures ListedNodes(ScannedNodes(tree, names)) == Collected(NodeObjects(names), tree.attributes)
    decreases |names|
  {
    if names != [] {
      NodesListed(tree, names[1..]);
      assert ScannedNodes(tree, names)[1..] == ScannedNodes(tree, names[1..]);
      assert NodeObjects(names)[1..] == NodeObjects(names[1..]);
    }
  }

  lemma {:induction false} SignalsListed(tree: Tree, id: nat, names: seq<string>)
    ensures ListedSignals(ScannedSignals(tree, id, names)) == Collected(SignalObjects(id, names), tree.attributes)
    decreases |names|
  {
    if names != [] {
      SignalsListed(tree, id, names[1..]);
      assert ScannedSignals(tree, id, names)[1..] == ScannedSignals(tree, id, names[1..]);
      assert SignalObjects(id, names)[1..] == SignalObjects(id, names[1..]);
    }
  }

  lemma {:induction false} MessagesListed(tree: Tree, messages: seq<GMessage>)
    ensures ListedMessages(ScannedMessages(tree, messages)) == Collected(MessageObjects(messages), tree.attributes)
    decreases |messages|
  {
    if messages != [] {
      var m, es := messages[0], tree.attributes;
      MessagesListed(tree, messages[1..]);
      assert ScannedMessages(tree, messages)[1..] == ScannedMessages(tree, messages[1..]);
      SignalsListed(tree, m.id, m.signals);
      CollectedAppends([Message(m.id)] + SignalObjects(m.id, m.signals), MessageObjects(messages[1..]), es);
      CollectedAppends([Message(m.id)], SignalObjects(m.id, m.signals), es);
      OneObject(Message(m.id), es);
    }
  }

  lemma {:induction false} VariablesListed(tree: Tree, names: seq<string>)
    ensures ListedVariables(ScannedVariables(tree, names)) == Collected(EnvVarObjects(names), tree.attributes)
    decreases |names|
  {
    if names != [] {
      VariablesListed(tree, names[1..]);
      assert ScannedVariables(tree, names)[1..] == ScannedVariables(tree, names[1..]);
      assert EnvVarObjects(names)[1..] == EnvVarObjects(names[1..]);
    }
  }

  lemma {:induction false} CollectedAppends(a: seq<Target>, b: seq<Target>, entries: seq<Entry<Attribute>>)
    ensures Collected(a + b, entries) == Collected(a, entries) + Collected(b, entries)
    decreases |a|
  {
    if a == [] {
      assert a + b == b;
    } else {
      assert (a + b)[1..] == a[1..] + b;
      CollectedAppends(a[1..], b, entries);
    }
  }

  /** With distinct keys every attribute of an object in the tree is in the network exactly once, and no
      other is. */
  lemma EveryAttributeOnce(tree: Tree)
    requires Distinct(Objects(tree))
    ensures multiset(Listed(Scanned(tree))) == multiset(About(Objects(tree), tree.attributes))
  {
    ListedIsCollected(tree);
    forall a
      ensures multiset(Collected(Objects(tree), tree.attributes))[a] ==
              multiset(About(Objects(tree), tree.attributes))[a]
    {
      CollectedIsDue(Objects(tree), tree.attributes, a);
      DueOnce(Objects(tree), tree.attributes, a);
    }
  }

  // ----- the index -----

  /** Entries are held by their positions in the tree's lists. */
  datatype SignalCache = SignalCache(attributes: seq<nat>, description: Option<nat>, comment: Option<nat>)

  datatype MessageCache = MessageCache(signals: map<string, SignalCache>, attributes: seq<nat>, comment: Option<nat>)

  datatype EnvVarCache = EnvVarCache(attributes: seq<nat>, description: Option<nat>, comment: Option<nat>)

  datatype NodeCache = NodeCache(attributes: seq<nat>, comment: Option<nat>)

  const NO_SIGNAL := SignalCache([], None, None)
  const NO_MESSAGE := MessageCache(map[], [], None)
  const NO_ENV_VAR := EnvVarCache([], None, None)
  const NO_NODE := NodeCache([], None)

  class Cache {
    var networkAttributes: seq<nat>
    var networkComment: Option<nat>
    var envVars: map<string, EnvVarCache>
    var nodes: map<string, NodeCache>
    var messages: map<nat, MessageCache>

    constructor ()
      ensures forall t :: Attributes(t) == [] && Comment(t) == None && Described(t) == None
    {
      networkAttributes := [];
      networkComment := None;
      envVars := map[];
      nodes := map[];
      messages := map[];
    }

    function NodeAt(name: string): NodeCache
      reads this
    {
      if name in nodes then nodes[name] else NO_NODE
    }

    function EnvVarAt(name: string): EnvVarCache
      reads this
    {
      if name in envVars then envVars[name] else NO_ENV_VAR
    }

    function MessageAt(id: nat): MessageCache
      reads this
    {
      if id in messages then messages[id] else NO_MESSAGE
    }

    function SignalAt(id: nat, name: string): SignalCache
      reads this
    {
      var m := MessageAt(id);
      if name in m.signals then m.signals[name] else NO_SIGNAL
    }

    function Attributes(t: Target): seq<nat>
      reads this
    {
      match t
      case Network => networkAttributes
      case Node(n) => NodeAt(n).attributes
      case Message(m) => MessageAt(m).attributes
      case Signal(m, s) => SignalAt(m, s).attributes
      case EnvVar(v) => EnvVarAt(v).attributes
    }

    function Comment(t: Target): Option<nat>
      reads this
    {
      match t
      case Network => networkComment
      case Node(n) => NodeAt(n).comment
      case Message(m) => MessageAt(m).comment
      case Signal(m, s) => SignalAt(m, s).comment
      case EnvVar(v) => EnvVarAt(v).comment
    }

    function Described(t: Target): Option<nat>
      reads this
    {
      match t
      case Signal(m, s) => SignalAt(m, s).description
      case EnvVar(v) => EnvVarAt(v).description
      case Network => None
      case Node(_) => None
      case Message(_) => None
    }

    method SetSignal(id: nat, name: string, c: SignalCache)
      modifies this`messages
      ensures SignalAt(id, name) == c
      ensures forall m, s :: m != id || s != name ==> SignalAt(m, s) == old(SignalAt(m, s))
      ensures forall m :: MessageAt(m).attributes == old(MessageAt(m).attributes)
      ensures forall m :: MessageAt(m).comment == old(MessageAt(m).comment)
    {
      var message := MessageAt(id);
      messages := messages[id := message.(signals := message.signals[name := c])];
    }

    /** Replaces what is kept of a message itself. */
    method SetMessage(id: nat, attributes: seq<nat>, comment: Option<nat>)
      modifies this`messages
      ensures MessageAt(id).attributes == attributes && MessageAt(id).comment == comment
      ensures forall m :: m != id ==> MessageAt(m) == old(MessageAt(m))
      ensures forall m, s :: SignalAt(m, s) == old(SignalAt(m, s))
    {
      messages := messages[id := MessageAt(id).(attributes := attributes, comment := comment)];
    }

    /** Appends an attribute position to its target's list and to no other. */
    method AddAttribute(t: Target, i: nat)
      modifies this
      ensures forall u :: Attributes(u) == old(Attributes(u)) + (if u == t then [i] else [])
      ensures forall u :: Comment(u) == old(Comment(u)) && Described(u) == old(Described(u))
    {
      match t {
        case Network =>
          networkAttributes := networkAttributes + [i];
        case Node(n) =>
          var c := NodeAt(n);
          nodes := nodes[n := c.(attributes := c.attributes + [i])];
        case Message(m) =>
          var c := MessageAt(m);
          SetMessage(m, c.attributes + [i], c.comment);
        case Signal(m, s) =>
          var c := SignalAt(m, s);
          SetSignal(m, s, c.(attributes := c.attributes + [i]));
        case EnvVar(v) =>
          var c := EnvVarAt(v);
          envVars := envVars[v := c.(attributes := c.attributes + [i])];
      }
    }

    /** Overwrites the description of a signal or an environment variable; nothing else has one. */
    method SetDescription(t: Target, i: nat)
      requires t.Signal? || t.EnvVar?
      modifies this
      ensures forall u :: Described(u) == (if u == t then Some(i) else old(Described(u)))
      ensures forall u :: Comment(u) == old(Comment(u)) && Attributes(u) == old(Attributes(u))
    {
      match t {
        case Signal(m, s) =>
          SetSignal(m, s, SignalAt(m, s).(description := Some(i)));
        case EnvVar(v) =>
          envVars := envVars[v := EnvVarAt(v).(description := Some(i))];
      }
    }

    method SetComment(t: Target, i: nat)
      modifies this
      ensures forall u :: Comment(u) == (if u == t then Some(i) else old(Comment(u)))
      ensures forall u :: Attributes(u) == old(Attributes(u)) && Described(u) == old(Described(u))
    {
      match t {
        case Network =>
          networkComment := Some(i);
        case Node(n) =>
          nodes := nodes[n := NodeAt(n).(comment := Some(i))];
        case Message(m) =>
          SetMessage(m, MessageAt(m).attributes, Some(i));
        case Signal(m, s) =>
          SetSignal(m, s, SignalAt(m, s).(comment := Some(i)));
        case EnvVar(v) =>
          envVars := envVars[v := EnvVarAt(v).(comment := Some(i))];
      }
    }
  }

  lemma NextPosition<T>(entries: seq<Entry<T>>, i: nat)
    requires i < |entries|
    ensures forall t :: Positions(entries[..i + 1], t) ==
                        Positions(entries[..i], t) + (if entries[i].target == t then [i] else [])
    ensures forall t :: ScanLast(entries[..i + 1], t) ==
                        (if entries[i].target == t then Some(i) else ScanLast(entries[..i], t))
  {
    var s := entries[..i + 1];
    assert s[..i] == entries[..i] && s != [] && s[|s| - 1] == entries[i];
    forall t
      ensures ScanLast(s, t) == (if entries[i].target == t then Some(i) else ScanLast(s[..i], t))
    {
    }
  }

  lemma LastSoFar<T>(entries: seq<Entry<T>>, i: nat)
    requires i < |entries|
    ensures ScanLast(entries[..i + 1], entries[i].target) == Some(i)
  {
  }

  lemma NoneYet<T>(entries: seq<Entry<T>>)
    ensures entries[..|entries|] == entries
    ensures forall t :: Positions(entries[..0], t) == [] && ScanLast(entries[..0], t) == None
  {
  }

  /** Indexes the whole tree: each object's list is its scan, each single entry the last one. */
  method Index(tree: Tree) returns (cache: Cache)
    requires Parsed(tree)
    ensures fresh(cache)
    ensures forall t :: cache.Attributes(t) == Positions(tree.attributes, t)
    ensures forall t :: cache.Comment(t) == ScanLast(tree.comments, t)
    ensures forall t :: cache.Described(t) == ScanLast(tree.descriptions, t)
  {
    cache := new Cache();
    IndexAttributes(cache, tree.attributes);
    IndexDescriptions(cache, tree.descriptions);
    IndexComments(cache, tree.comments);
  }

  method IndexAttributes(cache: Cache, entries: seq<Entry<Attribute>>)
    requires forall t :: cache.Attributes(t) == []
    modifies cache
    ensures forall t :: cache.Attributes(t) == Positions(entries, t)
    ensures forall t :: cache.Comment(t) == old(cache.Comment(t)) && cache.Described(t) == old(cache.Described(t))
  {
    hide Positions, ScanLast, Cache.Attributes, Cache.Comment, Cache.Described;
    NoneYet(entries);
    var i := 0;
    while i < |entries|
      invariant 0 <= i <= |entries|
      invariant forall t :: cache.Attributes(t) == Positions(entries[..i], t)
      invariant forall t :: cache.Comment(t) == old(cache.Comment(t))
      invariant forall t :: cache.Described(t) == old(cache.Described(t))
    {
      NextPosition(entries, i);
      cache.AddAttribute(entries[i].target, i);
      i := i + 1;
    }
  }

  method IndexDescriptions(cache: Cache, entries: seq<Entry<seq<Description>>>)
    requires forall t :: cache.Described(t) == None
    requires forall d :: d in entries ==> d.target.Signal? || d.target.EnvVar?
    modifies cache
    ensures forall t :: cache.Described(t) == ScanLast(entries, t)
    ensures forall t :: cache.Comment(t) == old(cache.Comment(t)) && cache.Attributes(t) == old(cache.Attributes(t))
  {
    hide Positions, ScanLast, Cache.Attributes, Cache.Comment, Cache.Described;
    NoneYet(entries);
    var i := 0;
    while i < |entries|
      invariant 0 <= i <= |entries|
      invariant forall t :: cache.Described(t) == ScanLast(entries[..i], t)
      invariant forall t :: cache.Comment(t) == old(cache.Comment(t))
      invariant forall t :: cache.Attributes(t) == old(cache.Attributes(t))
    {
      NextPosition(entries, i);
      LastSoFar(entries, i);
      cache.SetDescription(entries[i].target, i);
      i := i + 1;
    }
  }

  method IndexComments(cache: Cache, entries: seq<Entry<string>>)
    requires forall t :: cache.Comment(t) == None
    modifies cache
    ensures forall t :: cache.Comment(t) == ScanLast(entries, t)
    ensures forall t :: cache.Described(t) == old(cache.Described(t)) && cache.Attributes(t) == old(cache.Attributes(t))
  {
    hide Positions, ScanLast, Cache.Attributes, Cache.Comment, Cache.Described;
    NoneYet(entries);
    var i := 0;
    while i < |entries|
      invariant 0 <= i <= |entries|
      invariant forall t :: cache.Comment(t) == ScanLast(entries[..i], t)
      invariant forall t :: cache.Described(t) == old(cache.Described(t))
      invariant forall t :: cache.Attributes(t) == old(cache.Attributes(t))
    {
      NextPosition(entries, i);
      LastSoFar(entries, i);
      cache.SetComment(entries[i].target, i);
      i := i + 1;
    }
  }

  // ----- building -----

  /** The cache of a tree, as the index leaves it. */
  ghost predicate Indexes(cache: Cache, tree: Tree)
    reads cache
  {
    (forall t :: cache.Attributes(t) == Positions(tree.attributes, t)) &&
    (forall t :: cache.Comment(t) == ScanLast(tree.comments, t)) &&
    (forall t :: cache.Described(t) == ScanLast(tree.descriptions, t))
  }

  method GetAttributeValues(tree: Tree, t: Target, cache: Cache) returns (r: seq<Attribute>)
    requires Indexes(cache, tree)
    ensures r == ScanAll(tree.attributes, t)
  {
    PositionsScan(tree.attributes, t);
    var at := cache.Attributes(t);
    r := [];
    var i := 0;
    while i < |at|
      invariant 0 <= i <= |at| && r == ContentsAt(tree.attributes, at[..i])
    {
      r := r + [tree.attributes[at[i]].content];
      i := i + 1;
    }
    assert at[..i] == at;
  }

  method GetComment(tree: Tree, t: Target, cache: Cache) returns (r: string)
    requires Indexes(cache, tree)
    ensures r == LastContent(tree.comments, t, "")
  {
    LastIsLast(tree.comments, t);
    r := "";
    var k := cache.Comment(t);
    if k.Some? {
      r := tree.comments[k.value].content;
    }
  }

  method GetValueDescriptions(tree: Tree, t: Target, cache: Cache) returns (r: seq<Description>)
    requires Indexes(cache, tree)
    ensures r == LastContent(tree.descriptions, t, [])
  {
    LastIsLast(tree.descriptions, t);
    r := [];
    var k := cache.Described(t);
    if k.Some? {
      r := tree.descriptions[k.value].content;
    }
  }

  method GetNodes(tree: Tree, cache: Cache) returns (nodes: seq<BuiltNode>)
    requires Indexes(cache, tree)
    ensures nodes == Scanned(tree).nodes
  {
    hide Indexes, ScanAll, LastContent;
    nodes := [];
    var i := 0;
    while i < |tree.nodes|
      invariant 0 <= i <= |tree.nodes| && nodes == Scanned(tree).nodes[..i]
    {
      var n := tree.nodes[i];
      var comment := GetComment(tree, Node(n), cache);
      var attributes := GetAttributeValues(tree, Node(n), cache);
      nodes := nodes + [BuiltNode(n, comment, attributes)];
      i := i + 1;
    }
  }

  method GetSignals(tree: Tree, m: GMessage, cache: Cache) returns (signals: seq<BuiltSignal>)
    requires Indexes(cache, tree)
    ensures signals == ScannedMessage(tree, m).signals
  {
    hide Indexes, ScanAll, LastContent;
    signals := [];
    var i := 0;
    while i < |m.signals|
      invariant 0 <= i <= |m.signals| && signals == ScannedMessage(tree, m).signals[..i]
    {
      var s := m.signals[i];
      var attributes := GetAttributeValues(tree, Signal(m.id, s), cache);
      var descriptions := GetValueDescriptions(tree, Signal(m.id, s), cache);
      var comment := GetComment(tree, Signal(m.id, s), cache);
      signals := signals + [BuiltSignal(s, attributes, descriptions, comment)];
      i := i + 1;
    }
  }

  method GetMessages(tree: Tree, cache: Cache) returns (messages: seq<BuiltMessage>)
    requires Indexes(cache, tree)
    ensures messages == Scanned(tree).messages
  {
    hide Indexes, ScanAll, LastContent;
    messages := [];
    var i := 0;
    while i < |tree.messages|
      invariant 0 <= i <= |tree.messages| && messages == Scanned(tree).messages[..i]
    {
      var m := tree.messages[i];
      var signals := GetSignals(tree, m, cache);
      var attributes := GetAttributeValues(tree, Message(m.id), cache);
      var comment := GetComment(tree, Message(m.id), cache);
      messages := messages + [BuiltMessage(m.id, signals, attributes, comment)];
      i := i + 1;
    }
  }

  method GetEnvironmentVariables(tree: Tree, cache: Cache) returns (variables: seq<BuiltVariable>)
    requires Indexes(cache, tree)
    ensures variables == Scanned(tree).variables
  {
    hide Indexes, ScanAll, LastContent;
    variables := [];
    var i := 0;
    while i < |tree.variables|
      invariant 0 <= i <= |tree.variables| && variables == Scanned(tree).variables[..i]
    {
      var v := tree.variables[i];
      var descriptions := GetValueDescriptions(tree, EnvVar(v), cache);
      var attributes := GetAttributeValues(tree, EnvVar(v), cache);
      var comment := GetComment(tree, EnvVar(v), cache);
      variables := variables + [BuiltVariable(v, descriptions, attributes, comment)];
      i := i + 1;
    }
  }

  /** The indexed build gives the network that linear scans would. */
  method BuildNetwork(tree: Tree) returns (n: BuiltNetwork)
    requires Parsed(tree)
    ensures n == Scanned(tree) && OfTree(tree, n)
  {
    hide ScanAll, LastContent, OfTree;
    ScannedIsOfTree(tree);
    var cache := Index(tree);
    var nodes := GetNodes(tree, cache);
    var messages := GetMessages(tree, cache);
    var variables := GetEnvironmentVariables(tree, cache);
    var attributes := GetAttributeValues(tree, Network, cache);
    var comment := GetComment(tree, Network, cache);
    n := BuiltNetwork(nodes, messages, variables, attributes, comment);
  }
}
