/**
 The interactive chat of the command-line client: one token array, edited in place when
 the thinking mode changes, extended and rolled back by turns, with image spans that
 point into it.

 The code works on offsets.  The reference is a document, a thinking prefix and a list of
 items, laid out behind the BOS tokens; the main theorem says that the two stay in step.
 */
module ReplChat {
  import opened Strings

  /** ds4_vision_span: where the tokens of an image are, and which image. */
  datatype Span = Span(start: int, count: nat, id: int)

  /** repl_chat */
  datatype Chat = Chat(transcript: seq<int>, images: seq<Span>, prefixPos: nat, prefixTokens: nat)
  {
    ghost predicate Valid() {
      prefixPos + prefixTokens <= |transcript|
    }
  }

  /** What ds4_prompt_append_vision does. */
  datatype VisionReply =
    | NoVision(pushed: seq<int>)
    | Vision(before: seq<int>, tokens: seq<int>, after: seq<int>, id: int)

  datatype Message = UserText(tokens: seq<int>) | UserImage(user: int, reply: VisionReply, text: seq<int>)

  /** How decoding ends: on its own, by an interrupt, or with an error. */
  datatype Ending = Finished | Interrupted | DecodeFailed

  /** Everything a turn does not decide itself. */
  datatype Turn = Turn(
    prefix: seq<int>,        // the thinking prefix of the effective mode
    message: Message,
    assistant: seq<int>,     // the assistant prefix
    syncOk: bool,
    reply: seq<int>,         // the tokens generated
    ending: Ending,
    eos: Option<int>)        // None for model families whose turns do not end with it

  /** A line typed at the prompt: a change of thinking mode, or a message. */
  datatype Op = Switch(prefix: seq<int>) | Say(turn: Turn)

  // ------------------------------------------------------------------------------------
  // The chat on values, branch by branch
  // ------------------------------------------------------------------------------------

  function InsertAt(t: seq<int>, pos: int, src: seq<int>): seq<int> {
    var p := if pos < 0 then 0 else if pos > |t| then |t| else pos;
    t[..p] + src + t[p..]
  }

  function RemoveAt(t: seq<int>, pos: int, n: int): seq<int> {
    if n <= 0 || pos < 0 || pos >= |t| then t
    else t[..pos] + t[if pos + n > |t| then |t| else pos + n..]
  }

  function ShiftAll(images: seq<Span>, shift: int): (r: seq<Span>)
    ensures |r| == |images|
    ensures forall i :: 0 <= i < |r| ==> r[i] == images[i].(start := images[i].start + shift)
  {
    if images == [] then [] else [images[0].(start := images[0].start + shift)] + ShiftAll(images[1..], shift)
  }

  /** The prefix is the one in place. */
  predicate Same(c: Chat, prefix: seq<int>)
    requires c.Valid()
  {
    c.prefixTokens == |prefix| && c.transcript[c.prefixPos..c.prefixPos + c.prefixTokens] == prefix
  }

  lemma PrefixFits(c: Chat, prefix: seq<int>)
    requires c.Valid()
    ensures c.prefixPos + |prefix| <= |InsertAt(RemoveAt(c.transcript, c.prefixPos, c.prefixTokens), c.prefixPos, prefix)|
  {
  }

  /** repl_chat_apply_think_prefix */
  function ApplyPrefix(c: Chat, prefix: seq<int>): (r: Chat)
    requires c.Valid()
    ensures r.Valid() && r.prefixPos == c.prefixPos && r.prefixTokens == |prefix|
  {
    if Same(c, prefix) then c
    else
      PrefixFits(c, prefix);
      Chat(InsertAt(RemoveAt(c.transcript, c.prefixPos, c.prefixTokens), c.prefixPos, prefix),
           ShiftAll(c.images, |prefix| - c.prefixTokens),
           c.prefixPos, |prefix|)
  }

  function Push(c: Chat, tokens: seq<int>): Chat {
    c.(transcript := c.transcript + tokens)
  }

  function AddImage(c: Chat, v: VisionReply): Chat
    requires v.Vision?
  {
    var d := Push(c, v.before);
    Push(Push(d, v.tokens), v.after).(images := c.images + [Span(|d.transcript|, |v.tokens|, v.id)])
  }

  function AddMessage(c: Chat, m: Message): Option<Chat> {
    match m
    case UserText(tokens) => Some(Push(c, tokens))
    case UserImage(user, NoVision(_), _) => None
    case UserImage(user, v, text) => Some(Push(AddImage(Push(c, [user]), v), text))
  }

  /** run_chat_turn; a rollback cuts back to the lengths noted after the prefix was applied. */
  function RunTurn(c: Chat, u: Turn): (r: Chat)
    requires c.Valid()
    ensures r.Valid()
  {
    var start := ApplyPrefix(c, u.prefix);
    match AddMessage(start, u.message)
    case None => start
    case Some(asked) =>
      if !u.syncOk then start
      else
        var answered := Push(Push(asked, u.assistant), u.reply);
        if u.ending.DecodeFailed? then answered
        else if u.ending.Interrupted? && u.reply == [] then start
        else if u.eos.Some? then Push(answered, [u.eos.value])
        else answered
  }

  // ------------------------------------------------------------------------------------
  // The document
  // ------------------------------------------------------------------------------------

  datatype Item = Text(tokens: seq<int>) | Picture(tokens: seq<int>, id: int)

  datatype Doc = Doc(prefix: seq<int>, items: seq<Item>)

  function Flat(items: seq<Item>): seq<int> {
    if items == [] then [] else items[0].tokens + Flat(items[1..])
  }

  function Pictures(items: seq<Item>): seq<Item> {
    if items == [] then [] else (if items[0].Picture? then [items[0]] else []) + Pictures(items[1..])
  }

  function Spans(items: seq<Item>, at: int): seq<Span> {
    if items == [] then []
    else
      (if items[0].Picture? then [Span(at, |items[0].tokens|, items[0].id)] else [])
      + Spans(items[1..], at + |items[0].tokens|)
  }

  /** The chat a document stands for. */
  function Layout(bos: seq<int>, d: Doc): (c: Chat)
    ensures c.Valid()
  {
    Chat(bos + d.prefix + Flat(d.items), Spans(d.items, |bos| + |d.prefix|), |bos|, |d.prefix|)
  }

  /** What a message adds to the document. */
  function Asked(m: Message): Option<seq<Item>> {
    match m
    case UserText(tokens) => Some([Text(tokens)])
    case UserImage(_, NoVision(_), _) => None
    case UserImage(user, Vision(before, tokens, after, id), text) =>
      Some([Text([user]), Text(before), Picture(tokens, id), Text(after), Text(text)])
  }

  /** The items a turn adds; none when it is rolled back. */
  function Said(u: Turn): seq<Item> {
    if Asked(u.message).None? || !u.syncOk || (u.ending.Interrupted? && u.reply == []) then []
    else
      var eos := if u.eos.Some? && !u.ending.DecodeFailed? then [Text([u.eos.value])] else [];
      Asked(u.message).value + ([Text(u.assistant), Text(u.reply)] + eos)
  }

  function DocOp(d: Doc, op: Op): Doc {
    match op
    case Switch(prefix) => d.(prefix := prefix)
    case Say(u) => Doc(u.prefix, d.items + Said(u))
  }

  function DocRun(d: Doc, ops: seq<Op>): Doc
    decreases |ops|
  {
    if ops == [] then d else DocRun(DocOp(d, ops[0]), ops[1..])
  }

  // ------------------------------------------------------------------------------------
  // Layout facts
  // ------------------------------------------------------------------------------------

  lemma {:induction false} FlatAppend(a: seq<Item>, b: seq<Item>)
    ensures Flat(a + b) == Flat(a) + Flat(b)
  {
    if a == [] {
      assert a + b == b;
    } else {
      FlatAppend(a[1..], b);
      assert a[0].tokens + (Flat(a[1..]) + Flat(b)) == a[0].tokens + Flat(a[1..]) + Flat(b);
      assert (a + b)[0] == a[0] && (a + b)[1..] == a[1..] + b;
    }
  }

  lemma {:induction false} SpansAppend(a: seq<Item>, b: seq<Item>, at: int)
    ensures Spans(a + b, at) == Spans(a, at) + Spans(b, at + |Flat(a)|)
  {
    if a == [] {
      assert a + b == b;
    } else {
      var n := at + |a[0].tokens|;
      SpansAppend(a[1..], b, n);
      assert (a + b)[0] == a[0] && (a + b)[1..] == a[1..] + b;
      Assoc(if a[0].Picture? then [Span(at, |a[0].tokens|, a[0].id)] else [], Spans(a[1..], n),
            Spans(b, n + |Flat(a[1..])|));
    }
  }

  lemma ShiftAllAppend(a: seq<Span>, b: seq<Span>, k: int)
    ensures ShiftAll(a + b, k) == ShiftAll(a, k) + ShiftAll(b, k)
  {
  }

  lemma {:induction false} SpansShift(items: seq<Item>, at: int, k: int)
    ensures Spans(items, at + k) == ShiftAll(Spans(items, at), k)
  {
    hide ShiftAll;
    if items != [] {
      var n := at + |items[0].tokens|;
      SpansShift(items[1..], n, k);
      assert n + k == at + k + |items[0].tokens|;
      ShiftAllAppend(if items[0].Picture? then [Span(at, |items[0].tokens|, items[0].id)] else [],
                     Spans(items[1..], n), k);
    }
  }

  /** A chat with items laid out at its end. */
  function Grown(c: Chat, items: seq<Item>): Chat {
    c.(transcript := c.transcript + Flat(items), images := c.images + Spans(items, |c.transcript|))
  }

  lemma LayoutGrows(bos: seq<int>, d: Doc, more: seq<Item>)
    ensures Layout(bos, d.(items := d.items + more)) == Grown(Layout(bos, d), more)
  {
    FlatAppend(d.items, more);
    SpansAppend(d.items, more, |bos| + |d.prefix|);
    assert bos + d.prefix + (Flat(d.items) + Flat(more)) == bos + d.prefix + Flat(d.items) + Flat(more);
  }

  /** The surgery on the token array puts the new prefix exactly where the previous one was. */
  lemma Surgery(bos: seq<int>, p: seq<int>, body: seq<int>, q: seq<int>)
    ensures InsertAt(RemoveAt(bos + p + body, |bos|, |p|), |bos|, q) == bos + q + body
  {
    var t := bos + p + body;
    assert RemoveAt(t, |bos|, |p|) == bos + body by {
      assert t[..|bos|] == bos && t[|bos| + |p|..] == body;
      if p == [] {
        assert bos + p == bos;
      }
    }
    assert (bos + body)[..|bos|] == bos && (bos + body)[|bos|..] == body;
  }

  /** A switch changes the prefix, and nothing else of the document. */
  lemma SwitchRefines(bos: seq<int>, d: Doc, prefix: seq<int>)
    ensures ApplyPrefix(Layout(bos, d), prefix) == Layout(bos, d.(prefix := prefix))
  {
    hide InsertAt, RemoveAt, Flat, Spans;
    var c := Layout(bos, d);
    assert c.transcript[c.prefixPos..c.prefixPos + c.prefixTokens] == d.prefix;
    Surgery(bos, d.prefix, Flat(d.items), prefix);
    SpansShift(d.items, |bos| + |d.prefix|, |prefix| - |d.prefix|);
  }

  lemma GrownTwice(c: Chat, a: seq<Item>, b: seq<Item>)
    ensures Grown(Grown(c, a), b) == Grown(c, a + b)
  {
    FlatAppend(a, b);
    SpansAppend(a, b, |c.transcript|);
    assert c.transcript + (Flat(a) + Flat(b)) == c.transcript + Flat(a) + Flat(b);
    var m, n := Spans(a, |c.transcript|), Spans(b, |c.transcript| + |Flat(a)|);
    assert c.images + (m + n) == c.images + m + n;
  }

  lemma GrownOne(c: Chat, i: Item)
    ensures Grown(c, [i])
            == Push(c, i.tokens).(images := c.images
                 + if i.Picture? then [Span(|c.transcript|, |i.tokens|, i.id)] else [])
  {
    assert [i][1..] == [];
    assert Flat([i]) == i.tokens + Flat([]) == i.tokens;
    assert Spans([], |c.transcript| + |i.tokens|) == [];
  }

  /** One more text behind the items already laid out. */
  lemma PushText(c: Chat, items: seq<Item>, tokens: seq<int>)
    ensures Push(Grown(c, items), tokens) == Grown(c, items + [Text(tokens)])
  {
    hide Grown;
    GrownTwice(c, items, [Text(tokens)]);
    GrownOne(Grown(c, items), Text(tokens));
    assert Grown(c, items).images + [] == Grown(c, items).images;
  }

  lemma PushPicture(c: Chat, items: seq<Item>, tokens: seq<int>, id: int)
    ensures var g := Grown(c, items);
            Push(g, tokens).(images := g.images + [Span(|g.transcript|, |tokens|, id)])
            == Grown(c, items + [Picture(tokens, id)])
  {
    hide Grown;
    GrownTwice(c, items, [Picture(tokens, id)]);
    GrownOne(Grown(c, items), Picture(tokens, id));
  }

  lemma GrownNone(c: Chat)
    ensures Grown(c, []) == c
  {
  }

  /** The items of a message with an image, appended one by one. */
  lemma AddImageGrows(c: Chat, items: seq<Item>, v: VisionReply)
    requires v.Vision?
    ensures AddImage(Grown(c, items), v)
            == Grown(c, items + [Text(v.before)] + [Picture(v.tokens, v.id)] + [Text(v.after)])
  {
    hide Grown;
    PushText(c, items, v.before);
    PushPicture(c, items + [Text(v.before)], v.tokens, v.id);
    PushText(c, items + [Text(v.before)] + [Picture(v.tokens, v.id)], v.after);
  }

  lemma ImageGrows(c: Chat, user: int, v: VisionReply, text: seq<int>)
    requires v.Vision?
    ensures Push(AddImage(Push(c, [user]), v), text)
            == Grown(c, [Text([user]), Text(v.before), Picture(v.tokens, v.id), Text(v.after), Text(text)])
  {
    hide Grown, AddImage, Push;
    GrownNone(c);
    PushText(c, [], [user]);
    assert [] + [Text([user])] == [Text([user])];
    AddImageGrows(c, [Text([user])], v);
    PushText(c, [Text([user])] + [Text(v.before)] + [Picture(v.tokens, v.id)] + [Text(v.after)], text);
    assert [Text([user])] + [Text(v.before)] + [Picture(v.tokens, v.id)] + [Text(v.after)] + [Text(text)]
        == [Text([user]), Text(v.before), Picture(v.tokens, v.id), Text(v.after), Text(text)];
  }

  lemma MessageGrows(c: Chat, m: Message)
    ensures AddMessage(c, m).None? <==> Asked(m).None?
    ensures Asked(m).Some? ==> AddMessage(c, m) == Some(Grown(c, Asked(m).value))
  {
    hide Grown, AddImage, Push;
    match m
    case UserText(tokens) =>
      GrownNone(c);
      PushText(c, [], tokens);
      assert [] + [Text(tokens)] == [Text(tokens)];
    case UserImage(user, v, text) =>
      if v.Vision? {
        ImageGrows(c, user, v, text);
      }
  }

  /** A turn that is not rolled back appends its items; a rolled-back one leaves no trace. */
  lemma TurnGrows(c: Chat, u: Turn)
    requires c.Valid()
    ensures RunTurn(c, u) == Grown(ApplyPrefix(c, u.prefix), Said(u))
  {
    hide Grown, AddMessage, ApplyPrefix, Push;
    var start := ApplyPrefix(c, u.prefix);
    GrownNone(start);
    MessageGrows(start, u.message);
    if Asked(u.message).Some? {
      var a := Asked(u.message).value;
      PushText(start, a, u.assistant);
      PushText(start, a + [Text(u.assistant)], u.reply);
      assert a + [Text(u.assistant)] + [Text(u.reply)] == a + ([Text(u.assistant), Text(u.reply)] + []);
      if u.eos.Some? {
        var e := [Text([u.eos.value])];
        PushText(start, a + [Text(u.assistant)] + [Text(u.reply)], [u.eos.value]);
        assert a + [Text(u.assistant)] + [Text(u.reply)] + e == a + ([Text(u.assistant), Text(u.reply)] + e);
      }
    }
  }

  lemma TurnRefines(bos: seq<int>, d: Doc, u: Turn)
    ensures RunTurn(Layout(bos, d), u) == Layout(bos, DocOp(d, Say(u)))
  {
    hide Layout, Grown, RunTurn, ApplyPrefix, Said;
    TurnGrows(Layout(bos, d), u);
    SwitchRefines(bos, d, u.prefix);
    LayoutGrows(bos, d.(prefix := u.prefix), Said(u));
  }

  // ------------------------------------------------------------------------------------
  // Whole conversations
  // ------------------------------------------------------------------------------------

  function Do(c: Chat, op: Op): (r: Chat)
    requires c.Valid()
    ensures r.Valid()
  {
    match op
    case Switch(prefix) => ApplyPrefix(c, prefix)
    case Say(u) => RunTurn(c, u)
  }

  lemma DoRefines(bos: seq<int>, d: Doc, op: Op)
    ensures Do(Layout(bos, d), op) == Layout(bos, DocOp(d, op))
  {
    hide Layout, ApplyPrefix, RunTurn;
    match op
    case Switch(prefix) => SwitchRefines(bos, d, prefix);
    case Say(u) => TurnRefines(bos, d, u);
  }

  /** repl_chat_init */
  function Init(bos: seq<int>, prefix: seq<int>, system: seq<int>): Chat {
    var c := ApplyPrefix(Chat(bos, [], |bos|, 0), prefix);
    Push(c, system)
  }

  function InitDoc(prefix: seq<int>, system: seq<int>): Doc {
    Doc(prefix, [Text(system)])
  }

  lemma InitRefines(bos: seq<int>, prefix: seq<int>, system: seq<int>)
    ensures Init(bos, prefix, system) == Layout(bos, InitDoc(prefix, system))
  {
    hide ApplyPrefix, Layout;
    var none := Doc([], []);
    EmptyLayout(bos);
    SwitchRefines(bos, none, prefix);
    var d := none.(prefix := prefix);
    LayoutGrows(bos, d, [Text(system)]);
    assert [] + [Text(system)] == [Text(system)];
    GrownOne(Layout(bos, d), Text(system));
  }

  lemma EmptyLayout(bos: seq<int>)
    ensures Layout(bos, Doc([], [])) == Chat(bos, [], |bos|, 0)
  {
    assert bos + [] + [] == bos;
  }

  /** The chat after a conversation. */
  function DoAll(c: Chat, ops: seq<Op>): Chat
    requires c.Valid()
    decreases |ops|
  {
    if ops == [] then c else DoAll(Do(c, ops[0]), ops[1..])
  }

  /**
   Over every conversation, the chat is the layout of the document: BOS, the current
   prefix, and a body that switches do not touch and rollbacks leave as it was.
   */
  lemma {:induction false} ChatIsLayout(bos: seq<int>, d: Doc, ops: seq<Op>)
    ensures DoAll(Layout(bos, d), ops) == Layout(bos, DocRun(d, ops))
    decreases |ops|
  {
    hide Layout, Do;
    if ops != [] {
      DoRefines(bos, d, ops[0]);
      ChatIsLayout(bos, DocOp(d, ops[0]), ops[1..]);
    }
  }

  /** The body depends on the turns alone: take the switches out and it is the same. */
  function Turns(ops: seq<Op>): seq<Op> {
    if ops == [] then []
    else (if ops[0].Say? then [ops[0]] else []) + Turns(ops[1..])
  }

  lemma {:induction false} BodyIgnoresSwitches(d: Doc, p: seq<int>, ops: seq<Op>)
    ensures DocRun(d, ops).items == DocRun(d.(prefix := p), Turns(ops)).items
    decreases |ops|
  {
    if ops != [] {
      var d' := DocOp(d, ops[0]);
      if ops[0].Say? {
        assert Turns(ops)[0] == ops[0] && Turns(ops)[1..] == Turns(ops[1..]);
        BodyIgnoresSwitches(d', d'.prefix, ops[1..]);
        assert DocOp(d.(prefix := p), ops[0]) == d' == d'.(prefix := d'.prefix);
      } else {
        BodyIgnoresSwitches(d', p, ops[1..]);
        assert Turns(ops) == Turns(ops[1..]);
        assert d'.(prefix := p) == d.(prefix := p);
      }
    }
  }

  /** Every span covers the tokens its image was appended with. */
  ghost predicate Covers(t: seq<int>, m: Span, picture: Item) {
    && picture.Picture? && m.id == picture.id && 0 <= m.start && m.start + m.count <= |t|
    && t[m.start..m.start + m.count] == picture.tokens
  }

  lemma {:induction false} SpansCover(head: seq<int>, items: seq<Item>, k: nat)
    requires k < |Spans(items, |head|)|
    ensures k < |Pictures(items)| == |Spans(items, |head|)|
    ensures Covers(head + Flat(items), Spans(items, |head|)[k], Pictures(items)[k])
    decreases |items|
  {
    var head' := head + items[0].tokens;
    assert head' + Flat(items[1..]) == head + Flat(items);
    assert |head'| == |head| + |items[0].tokens|;
    SpanCounts(items, |head|);
    if items[0].Picture? {
      if k > 0 {
        SpansCover(head', items[1..], k - 1);
      } else {
        FirstCovers(head, items[0].tokens, Flat(items[1..]));
      }
    } else {
      SpansCover(head', items[1..], k);
    }
  }

  lemma FirstCovers(head: seq<int>, a: seq<int>, rest: seq<int>)
    ensures (head + (a + rest))[|head|..|head| + |a|] == a
  {
  }

  lemma {:induction false} SpanCounts(items: seq<Item>, at: int)
    ensures |Spans(items, at)| == |Pictures(items)|
  {
    if items != [] {
      SpanCounts(items[1..], at + |items[0].tokens|);
    }
  }

  lemma ImagesCover(bos: seq<int>, d: Doc, k: nat)
    requires k < |Layout(bos, d).images|
    ensures k < |Pictures(d.items)| == |Layout(bos, d).images|
    ensures Covers(Layout(bos, d).transcript, Layout(bos, d).images[k], Pictures(d.items)[k])
  {
    SpansCover(bos + d.prefix, d.items, k);
    assert (bos + d.prefix) + Flat(d.items) == bos + d.prefix + Flat(d.items);
  }

  /** From the first prompt on, whatever is typed: every image still covers its own tokens. */
  lemma ConversationKeepsImages(bos: seq<int>, prefix: seq<int>, system: seq<int>, ops: seq<Op>)
    ensures Init(bos, prefix, system).Valid()
    ensures var d := DocRun(InitDoc(prefix, system), ops);
            var c := DoAll(Init(bos, prefix, system), ops);
            && c.transcript == bos + d.prefix + Flat(d.items)
            && |c.images| == |Pictures(d.items)|
            && forall k :: 0 <= k < |c.images| ==> Covers(c.transcript, c.images[k], Pictures(d.items)[k])
  {
    hide Init, Covers, DoAll;
    InitRefines(bos, prefix, system);
    ChatIsLayout(bos, InitDoc(prefix, system), ops);
    var d := DocRun(InitDoc(prefix, system), ops);
    SpanCounts(d.items, |bos| + |d.prefix|);
    var c := Layout(bos, d);
    forall k | 0 <= k < |c.images| ensures Covers(c.transcript, c.images[k], Pictures(d.items)[k]) {
      ImagesCover(bos, d, k);
    }
  }

  /** Only the last of several switches matters; switching back restores everything. */
  lemma SwitchBack(bos: seq<int>, d: Doc, p: seq<int>)
    ensures ApplyPrefix(ApplyPrefix(Layout(bos, d), p), d.prefix) == Layout(bos, d)
  {
    hide ApplyPrefix, Layout;
    SwitchRefines(bos, d, p);
    SwitchRefines(bos, d.(prefix := p), d.prefix);
  }

  // ------------------------------------------------------------------------------------
  // The token array
  // ------------------------------------------------------------------------------------

  /** ds4_tokens: an array with room to grow. */
  class Tokens {
    var v: array<int>
    var len: nat

    ghost predicate Valid()
      reads this
    {
      len <= v.Length
    }

    ghost function Contents(): (t: seq<int>)
      requires Valid()
      reads this, v
    {
      v[..len]
    }

    constructor ()
      ensures Valid() && fresh(v) && Contents() == []
    {
      v := new int[0];
      len := 0;
    }

    /** Double the capacity until `n` tokens fit. */
    method Reserve(n: nat)
      requires Valid()
      modifies this`v
      ensures Valid() && Contents() == old(Contents()) && n <= v.Length
      ensures v == old(v) || fresh(v)
    {
      var cap := v.Length;
      while n > cap
        invariant v.Length <= cap
        decreases n - cap
      {
        cap := if cap != 0 then cap * 2 else 64;
      }
      if cap > v.Length {
        var next := new int[cap];
        for i := 0 to len
          invariant v == old(v) && forall k :: 0 <= k < i ==> next[k] == v[k]
        {
          next[i] := v[i];
        }
        v := next;
      }
    }

    /** ds4_tokens_push, for a run of tokens */
    method Append(tokens: seq<int>)
      requires Valid()
      modifies this, v
      ensures Valid() && Contents() == old(Contents()) + tokens && (v == old(v) || fresh(v))
    {
      for i := 0 to |tokens|
        invariant Valid() && (v == old(v) || fresh(v))
        invariant Contents() == old(Contents()) + tokens[..i]
      {
        Reserve(len + 1);
        v[len] := tokens[i];
        len := len + 1;
        assert Contents() == old(Contents()) + tokens[..i] + [tokens[i]];
        assert tokens[..i + 1] == tokens[..i] + [tokens[i]];
      }
      assert tokens[..|tokens|] == tokens;
    }

    /** memmove towards the end, the last element first */
    method MoveUp(pos: nat, n: nat, gap: nat)
      requires pos + n + gap <= v.Length
      modifies v
      ensures forall k :: 0 <= k < pos ==> v[k] == old(v[k])
      ensures forall k :: pos <= k < pos + n ==> v[k + gap] == old(v[k])
    {
      for i := n downto 0
        invariant forall k :: 0 <= k < pos + i ==> v[k] == old(v[k])
        invariant forall k :: pos + i <= k < pos + n ==> v[k + gap] == old(v[k])
      {
        v[pos + i + gap] := v[pos + i];
      }
    }

    /** memmove towards the beginning, the first element first */
    method MoveDown(pos: nat, n: nat, gap: nat)
      requires pos + gap + n <= v.Length
      modifies v
      ensures forall k :: 0 <= k < pos ==> v[k] == old(v[k])
      ensures forall k :: pos <= k < pos + n ==> v[k] == old(v[k + gap])
    {
      for i := 0 to n
        invariant forall k :: 0 <= k < pos ==> v[k] == old(v[k])
        invariant forall k :: pos <= k < pos + i ==> v[k] == old(v[k + gap])
        invariant forall k :: pos + i <= k < v.Length ==> v[k] == old(v[k])
      {
        v[pos + i] := v[pos + i + gap];
      }
    }

    /** memcpy of `src` to `pos` */
    method Fill(pos: nat, src: seq<int>)
      requires pos + |src| <= v.Length
      modifies v
      ensures forall k :: 0 <= k < pos ==> v[k] == old(v[k])
      ensures forall k :: pos <= k < pos + |src| ==> v[k] == src[k - pos]
      ensures forall k :: pos + |src| <= k < v.Length ==> v[k] == old(v[k])
    {
      for i := 0 to |src|
        invariant forall k :: 0 <= k < pos ==> v[k] == old(v[k])
        invariant forall k :: pos <= k < pos + i ==> v[k] == src[k - pos]
        invariant forall k :: pos + i <= k < v.Length ==> v[k] == old(v[k])
      {
        v[pos + i] := src[i];
      }
    }

    /** tokens_insert */
    method Insert(at: int, src: seq<int>)
      requires Valid()
      modifies this, v
      ensures Valid() && Contents() == InsertAt(old(Contents()), at, src) && (v == old(v) || fresh(v))
    {
      if src == [] {
        InsertNothing(Contents(), at);
        return;
      }
      var pos: nat := if at < 0 then 0 else if at > len then len else at;
      Reserve(len + |src|);
      ghost var t := Contents();
      MoveUp(pos, len - pos, |src|);
      ghost var moved := v[..];
      assert forall k :: pos <= k < len ==> moved[k + |src|] == t[k];
      Fill(pos, src);
      len := len + |src|;
      Inserted(t, pos, src, moved, Contents());
    }

    /** tokens_remove */
    method Remove(pos: int, count: int)
      requires Valid()
      modifies this`len, v
      ensures Valid() && Contents() == RemoveAt(old(Contents()), pos, count)
    {
      if count <= 0 || pos < 0 || pos >= len {
        return;
      }
      var n := if pos + count > len then len - pos else count;
      MoveDown(pos, len - pos - n, n);
      len := len - n;
      assert Contents() == old(Contents())[..pos] + old(Contents())[pos + n..];
    }

    /** Setting the length back. */
    method Truncate(n: nat)
      requires Valid() && n <= len
      modifies this`len
      ensures Valid() && Contents() == old(Contents())[..n]
    {
      len := n;
    }
  }

  lemma SliceOfBeginning(s: seq<int>, n: nat, i: nat, j: nat)
    requires i <= j <= n <= |s|
    ensures s[..n][i..j] == s[i..j]
  {
  }

  lemma InsertNothing(t: seq<int>, at: int)
    ensures InsertAt(t, at, []) == t
  {
  }

  lemma Inserted(t: seq<int>, pos: nat, src: seq<int>, moved: seq<int>, r: seq<int>)
    requires pos <= |t| && |r| == |t| + |src| <= |moved|
    requires forall k :: 0 <= k < pos ==> moved[k] == t[k]
    requires forall k :: pos <= k < |t| ==> moved[k + |src|] == t[k]
    requires forall k :: 0 <= k < pos ==> r[k] == moved[k]
    requires forall k :: pos <= k < pos + |src| ==> r[k] == src[k - pos]
    requires forall k :: pos + |src| <= k < |r| ==> r[k] == moved[k]
    ensures r == InsertAt(t, pos, src)
  {
    var e := t[..pos] + src + t[pos..];
    forall k | 0 <= k < |r| ensures r[k] == e[k] {
      if k >= pos + |src| {
        assert moved[(k - |src|) + |src|] == t[k - |src|];
      }
    }
  }

  // ------------------------------------------------------------------------------------
  // The chat that is edited in place
  // ------------------------------------------------------------------------------------

  class Repl {
    const transcript: Tokens
    var images: seq<Span>
    var prefixPos: nat
    var prefixTokens: nat

    ghost function State(): (c: Chat)
      requires transcript.Valid()
      reads this, transcript, transcript.v
    {
      Chat(transcript.Contents(), images, prefixPos, prefixTokens)
    }

    ghost predicate Valid()
      reads this, transcript, transcript.v
    {
      transcript.Valid() && State().Valid()
    }

    /** repl_chat_init */
    constructor (bos: seq<int>, prefix: seq<int>, system: seq<int>)
      ensures Valid() && State() == Init(bos, prefix, system)
      ensures fresh(transcript) && fresh(transcript.v)
    {
      var t := new Tokens();
      t.Append(bos);
      transcript := t;
      images := [];
      prefixPos := |bos|;
      prefixTokens := 0;
      new;
      hide ApplyPrefix;
      assert State() == Chat(bos, [], |bos|, 0);
      var changed := ApplyThinkPrefix(prefix);
      transcript.Append(system);
    }

    /** Move every image with the tokens behind the prefix. */
    method ShiftImages(shift: int)
      modifies this`images
      ensures images == ShiftAll(old(images), shift)
    {
      for i := 0 to |images|
        invariant |images| == |old(images)|
        invariant forall k :: 0 <= k < i ==> images[k] == old(images)[k].(start := old(images)[k].start + shift)
        invariant forall k :: i <= k < |images| ==> images[k] == old(images)[k]
      {
        images := images[i := images[i].(start := images[i].start + shift)];
      }
    }

    /** repl_chat_apply_think_prefix; the session is invalidated exactly when `changed`. */
    method ApplyThinkPrefix(prefix: seq<int>) returns (changed: bool)
      requires Valid()
      modifies this, transcript, transcript.v
      ensures Valid() && State() == ApplyPrefix(old(State()), prefix)
      ensures changed <==> !Same(old(State()), prefix)
      ensures transcript.v == old(transcript.v) || fresh(transcript.v)
    {
      hide InsertAt, RemoveAt, ShiftAll;
      var same := prefixTokens == |prefix|;
      if same {
        same := transcript.v[..][prefixPos..prefixPos + prefixTokens] == prefix;
        SliceOfBeginning(transcript.v[..], transcript.len, prefixPos, prefixPos + prefixTokens);
        assert transcript.v[..][..transcript.len] == transcript.Contents();
      }
      if !same {
        var shift := |prefix| - prefixTokens;
        PrefixFits(State(), prefix);
        transcript.Remove(prefixPos, prefixTokens);
        transcript.Insert(prefixPos, prefix);
        prefixTokens := |prefix|;
        ShiftImages(shift);
      }
      return !same;
    }

    /** repl_chat_trim_images and the cut of the transcript */
    method RollBack(len: nat, imageCount: nat)
      requires transcript.Valid() && len <= transcript.len && imageCount <= |images|
      modifies this`images, transcript`len
      ensures transcript.Valid()
      ensures State() == old(State()).(transcript := old(State().transcript)[..len], images := old(images)[..imageCount])
    {
      images := images[..imageCount];
      transcript.Truncate(len);
    }

    /** A new span, filled in by ds4_prompt_append_vision. */
    method AppendImage(r: VisionReply) returns (ok: bool)
      requires transcript.Valid()
      modifies this`images, transcript, transcript.v
      ensures transcript.Valid() && (transcript.v == old(transcript.v) || fresh(transcript.v))
      ensures ok == r.Vision?
      ensures ok ==> State() == AddImage(old(State()), r)
      ensures old(State().transcript) <= State().transcript && old(images) <= images
    {
      var n := |images|;
      images := images + [Span(0, 0, 0)];
      match r
      case NoVision(pushed) =>
        transcript.Append(pushed);
        return false;
      case Vision(before, tokens, after, id) =>
        transcript.Append(before);
        var start := transcript.len;
        transcript.Append(tokens);
        transcript.Append(after);
        images := images[n := Span(start, |tokens|, id)];
        return true;
    }

    /** The user's side of a turn; on failure the chat is only longer than before. */
    method AppendMessage(m: Message) returns (ok: bool)
      requires transcript.Valid()
      modifies this`images, transcript, transcript.v
      ensures transcript.Valid() && (transcript.v == old(transcript.v) || fresh(transcript.v))
      ensures ok == AddMessage(old(State()), m).Some?
      ensures ok ==> State() == AddMessage(old(State()), m).value
      ensures old(State().transcript) <= State().transcript && old(images) <= images
    {
      hide AddImage;
      match m
      case UserText(tokens) =>
        transcript.Append(tokens);
        return true;
      case UserImage(user, r, text) =>
        transcript.Append([user]);
        ok := AppendImage(r);
        if ok {
          transcript.Append(text);
        }
    }

    /** The assistant's side of a turn, when the prompt was processed. */
    method Answer(u: Turn, rollbackLen: nat, rollbackImages: nat)
      requires transcript.Valid() && rollbackLen <= transcript.len && rollbackImages <= |images|
      modifies this`images, transcript, transcript.v
      ensures transcript.Valid() && (transcript.v == old(transcript.v) || fresh(transcript.v))
      ensures State() == Answered(old(State()), u, rollbackLen, rollbackImages)
    {
      transcript.Append(u.reply);
      if u.ending.DecodeFailed? {
        return;
      }
      if u.ending.Interrupted? && |u.reply| == 0 {
        assert u.reply == [];
        RollBack(rollbackLen, rollbackImages);
      } else if u.eos.Some? {
        transcript.Append([u.eos.value]);
      }
    }

    /** run_chat_turn */
    method RunChatTurn(u: Turn) returns (rc: int)
      requires Valid()
      modifies this, transcript, transcript.v
      ensures Valid() && State() == RunTurn(old(State()), u)
      ensures rc == 0 <==> Asked(u.message).Some? && u.syncOk && !u.ending.DecodeFailed?
      ensures transcript.v == old(transcript.v) || fresh(transcript.v)
    {
      hide ApplyPrefix, AddMessage, Answered;
      var changed := ApplyThinkPrefix(u.prefix);
      var rollbackLen, rollbackImages := transcript.len, |images|;
      ghost var start := State();
      MessageGrows(start, u.message);
      var ok := AppendMessage(u.message);
      if !ok {
        RollBack(rollbackLen, rollbackImages);
        return 1;
      }
      ghost var asked := State();
      transcript.Append(u.assistant);
      if !u.syncOk {
        RollBack(rollbackLen, rollbackImages);
        return 1;
      }
      Answer(u, rollbackLen, rollbackImages);
      AnsweredTurn(start, asked, u);
      return if u.ending.DecodeFailed? then 1 else 0;
    }
  }

  /** What decoding and the end of the turn make of the prompted chat. */
  function Answered(c: Chat, u: Turn, rollbackLen: nat, rollbackImages: nat): Chat
    requires rollbackLen <= |c.transcript| && rollbackImages <= |c.images|
  {
    if u.ending.DecodeFailed? then Push(c, u.reply)
    else if u.ending.Interrupted? && u.reply == [] then
      c.(transcript := c.transcript[..rollbackLen], images := c.images[..rollbackImages])
    else if u.eos.Some? then Push(Push(c, u.reply), [u.eos.value])
    else Push(c, u.reply)
  }

  /** Cutting back undoes everything that was appended since. */
  lemma AnsweredTurn(start: Chat, asked: Chat, u: Turn)
    requires start.transcript <= asked.transcript && start.images <= asked.images && start.Valid()
    requires asked.prefixPos == start.prefixPos && asked.prefixTokens == start.prefixTokens
    ensures var r := Answered(Push(asked, u.assistant), u, |start.transcript|, |start.images|);
            && r.Valid()
            && r == if u.ending.Interrupted? && u.reply == [] then start
                    else if u.eos.Some? && !u.ending.DecodeFailed? then
                      Push(Push(Push(asked, u.assistant), u.reply), [u.eos.value])
                    else Push(Push(asked, u.assistant), u.reply)
  {
  }
}
