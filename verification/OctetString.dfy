/** OCTET STRING: `OCTET_STRING_decode_ber` of src/rspro/OCTET_STRING.c with its stack of
    expectations, for the subvariant ASN_OSUBV_STR that RSPRO uses. */
module OctetString {
  import opened Tlv
  import opened TagChain
  import opened SkipLength

  /** The growing buffer doubles from 16 octets and must stay below 2^31: APPEND fails from here. */
  const MAX_STRING: int := 0x4000_0000

  /** `struct _stack_el`; its `cont_level` is its position in the stack. */
  datatype Frame = Frame(left: int, got: nat, wantNulls: bool)

  /** Where the stack machine stands: the live frames, the octets collected so far, the octets
      not yet consumed, and whether phase 2 (copying a primitive segment) is on. */
  datatype Config = Config(stack: seq<Frame>, out: Bytes, b: Bytes, copying: bool)

  datatype Result = Result(code: Code, c: Config)

  datatype Frames = Refused | Frames(s: seq<Frame>)

  predicate Sane(c: Config) {
    && (forall f :: f in c.stack ==> f.left >= -1)
    && (c.copying ==> c.stack != [] && Top(c.stack).left >= 0)
  }

  function Top(s: seq<Frame>): (f: Frame)
    requires s != []
  {
    s[|s| - 1]
  }

  function Replace(s: seq<Frame>, f: Frame): (r: seq<Frame>)
    requires s != []
    ensures |r| == |s| && Top(r) == f
  {
    s[..|s| - 1] + [f]
  }

  /** What the enclosing frame may still give: all of the buffer when it is unlimited. */
  function Window(c: Config): (w: Bytes)
    requires Sane(c)
    ensures w <= c.b
  {
    if c.stack == [] || Top(c.stack).left == -1 then c.b else Cut(c.b, Top(c.stack).left)
  }

  /** The tag a nested segment must carry. */
  function Expected(allTags: seq<Tag>, depth: nat, seen: int): (t: int) {
    if depth == 0 || allTags == [] then seen
    else if depth - 1 < |allTags| then allTags[depth - 1]
    else allTags[|allTags| - 1]
  }

  /** The frame for a new TL of `used` octets, or none when the enclosing frame is too small. */
  function Push(s: seq<Frame>, used: nat, len: int): (r: Frames)
    requires len >= -1
  {
    var want := len == INDEFINITE;
    if s != [] && Top(s).left != -1 then
      var room := Top(s).left;
      if room < used + (if want then 0 else len) then Refused
      else Frames(s + [Frame(if want then room - used else len, used, want)])
    else Frames(s + [Frame(len, used, want)])
  }

  function Copied(c: Config, n: nat): (r: Config)
    requires c.stack != [] && n <= |c.b|
  {
    var f := Top(c.stack);
    Config(Replace(c.stack, Frame(f.left - n, f.got + n, f.wantNulls)), c.out + c.b[..n], c.b[n..], c.copying)
  }

  /** Phase 2: copy what is there of the segment. */
  function Copy(c: Config): (r: Result)
    requires Sane(c) && c.copying
    ensures r.code == OK ==> Sane(r.c) && !r.c.copying && |r.c.b| <= |c.b| && |r.c.stack| == |c.stack|
    ensures r.code == WMORE ==> Sane(r.c) && r.c.copying && r.c.b == [] && |r.c.stack| == |c.stack|
    ensures r.code == FAIL ==> r.c == c
    ensures r.code != STUCK
  {
    var f := Top(c.stack);
    var n := if |c.b| < f.left then |c.b| else f.left;
    if n > 0 && |c.out| + n >= MAX_STRING then Result(FAIL, c)
    else
      var c' := Copied(c, n);
      if f.left != n then Result(WMORE, c') else Result(OK, c'.(copying := false))
  }

  function Charge(p: Frame, n: nat): (f: Frame) {
    Frame(if p.left == -1 then -1 else p.left - n, p.got + n, p.wantNulls)
  }

  /** A satisfied expectation is charged to the one around it. */
  function Pop(s: seq<Frame>): (r: Frames)
    requires |s| >= 2
    requires forall f :: f in s ==> f.left >= -1
    ensures r.Frames? ==> |r.s| == |s| - 1 && forall f :: f in r.s ==> f.left >= -1
  {
    var f, p := s[|s| - 1], s[|s| - 2];
    if p.left != -1 && p.left < f.got then Refused
    else Frames(s[..|s| - 2] + [Charge(p, f.got)])
  }

  predicate Satisfied(s: seq<Frame>) {
    s != [] && Top(s).left <= 0 && !Top(s).wantNulls
  }

  /** One TL of phase 1 (OK means: go on), the machine not copying and not at a satisfied frame. */
  function Take(allTags: seq<Tag>, c: Config): (r: Result)
    requires Sane(c) && !c.copying
    ensures r.code == OK ==> Sane(r.c) && |r.c.b| < |c.b|
    ensures r.code != OK ==> r.c == c
    ensures r.code != STUCK
  {
    var w := Window(c);
    match FetchTag(w)
    case Bad => Result(FAIL, c)
    case More => Result(WMORE, c)
    case Got(tl, tag) =>
      var constr := Constructed(w[0]);
      match FetchLength(constr, w[tl..])
      case Bad => Result(FAIL, c)
      case More => Result(WMORE, c)
      case Got(ll, len) =>
        if c.stack != [] && Top(c.stack).wantNulls && w[0] == 0 && w[1] == 0 then
          Result(OK, c.(stack := Replace(c.stack, Frame(0, Top(c.stack).got + 2, false)), b := c.b[2..]))
        else if tag != Expected(allTags, |c.stack|, tag) then Result(FAIL, c)
        else
          var s := Push(c.stack, tl + ll, len);
          if s.Refused? then Result(FAIL, c)
          else Result(OK, c.(stack := s.s, b := c.b[tl + ll..], copying := !constr))
  }

  /** Phases 1 and 2 until the machine is done, wrong, or out of octets. */
  function Run(allTags: seq<Tag>, c: Config): (r: Result)
    requires Sane(c)
    ensures |r.c.b| <= |c.b|
    ensures r.code != FAIL ==> Sane(r.c)
    ensures r.code != STUCK
    decreases |c.b|, |c.stack|, c.copying
  {
    if c.copying then
      var k := Copy(c);
      if k.code == OK then Run(allTags, k.c) else k
    else if Satisfied(c.stack) then
      if |c.stack| == 1 then Result(OK, c.(stack := []))
      else
        var s := Pop(c.stack);
        if s.Refused? then Result(FAIL, c) else Run(allTags, c.(stack := s.s))
    else
      var t := Take(allTags, c);
      if t.code == OK then Run(allTags, t.c) else t
  }

  // ----- any nesting of segments gives the concatenation of the primitive ones

  /** Section 8.7 of X.690: the value is the primitive segments in order. */
  function Flat(n: Node): (b: Bytes)
    decreases n, 0
  {
    if n.Primitive? then n.contents else FlatAll(n.children)
  }

  function FlatAll(ns: Nodes): (b: Bytes)
    decreases ns, 1
  {
    match ns
    case Nil => []
    case Cons(h, t) => Flat(h) + FlatAll(t)
  }

  predicate Segment(n: Node, tag: Tag)
    decreases n, 0
  {
    && n.tag == tag
    && (n.Primitive? || Segments(n.children, tag))
  }

  predicate Segments(ns: Nodes, tag: Tag)
    decreases ns, 1
  {
    match ns
    case Nil => true
    case Cons(h, t) => Segment(h, tag) && Segments(t, tag)
  }

  /** The innermost frame can take `n` more octets. */
  predicate Room(s: seq<Frame>, n: nat) {
    && s != []
    && (forall f :: f in s ==> f.left >= -1)
    && (if Top(s).left == -1 then Top(s).wantNulls else Top(s).left >= n)
  }

  function Charged(s: seq<Frame>, n: nat): (r: seq<Frame>)
    requires s != []
  {
    Replace(s, Charge(Top(s), n))
  }

  lemma RunTake(allTags: seq<Tag>, c: Config)
    requires Sane(c) && !c.copying && !Satisfied(c.stack) && Take(allTags, c).code == OK
    ensures Run(allTags, c) == Run(allTags, Take(allTags, c).c)
  {}

  /** A header in front of its enclosing frame's octets is taken as a new expectation. */
  lemma TakeHeader(allTags: seq<Tag>, c: Config, tag: Tag, constr: bool, w: Bytes, ll: nat, len: int)
    requires Sane(c) && !c.copying
    requires Window(c) == Identifier(tag, constr) + w
    requires FetchLength(constr, w) == Got(ll, len)
    requires tag != 0 && tag == Expected(allTags, |c.stack|, tag)
    requires Push(c.stack, |Identifier(tag, constr)| + ll, len).Frames?
    ensures var used := |Identifier(tag, constr)| + ll;
            && used <= |c.b|
            && Take(allTags, c)
            == Result(OK, c.(stack := Push(c.stack, used, len).s, b := c.b[used..], copying := !constr))
  {
    hide FetchTag, FetchLength, Identifier, Window, Push, Expected;
    var t := Identifier(tag, constr);
    FetchTagRoundTrip(tag, constr, w);
    assert (t + w)[|t|..] == w;
    assert (t + w)[0] == t[0];
    NotEoc(tag, constr, w);
  }

  lemma NotEoc(tag: Tag, constr: bool, w: Bytes)
    requires tag != 0
    ensures (Identifier(tag, constr) + w)[0] != 0
  {}

  function DeclaredLength(n: Node): (len: int)
    requires WellFormed(n)
    ensures len >= -1 && (n.Primitive? ==> len >= 0)
  {
    match n
    case Primitive(_, c) => |c|
    case Definite(_, kids) => |Contents(kids)|
    case Indefinite(_, _) => INDEFINITE
  }

  function LengthOctets(n: Node): (b: Bytes)
    requires WellFormed(n)
    ensures |b| >= 1
  {
    if n.Indefinite? then [0x80] else SerializeLength(DeclaredLength(n))
  }

  function Body(n: Node): (b: Bytes)
    requires WellFormed(n)
  {
    match n
    case Primitive(_, c) => c
    case Definite(_, kids) => Contents(kids)
    case Indefinite(_, kids) => Contents(kids) + [0, 0]
  }

  function HeaderSize(n: Node): (k: nat)
    requires WellFormed(n)
    ensures k >= 2
  {
    |Identifier(n.tag, IsConstructed(n))| + |LengthOctets(n)|
  }

  lemma NodeParts(n: Node)
    requires WellFormed(n)
    ensures LengthAndContents(n) == LengthOctets(n) + Body(n)
    ensures Encoded(n) == Identifier(n.tag, IsConstructed(n)) + LengthAndContents(n)
    ensures |Encoded(n)| == HeaderSize(n) + |Body(n)|
  {}

  lemma HeaderLength(n: Node, x: Bytes)
    requires WellFormed(n)
    ensures FetchLength(IsConstructed(n), LengthOctets(n) + x) == Got(|LengthOctets(n)|, DeclaredLength(n))
  {
    hide Contents, SerializeLength, FetchLength;
    if n.Indefinite? {
      IndefiniteLength(x);
    } else {
      FetchLengthRoundTrip(IsConstructed(n), DeclaredLength(n), x);
    }
  }

  lemma IndefiniteLength(x: Bytes)
    ensures FetchLength(true, [0x80] + x) == Got(1, INDEFINITE)
  {}

  function NewFrame(s: seq<Frame>, n: Node): (f: Frame)
    requires WellFormed(n)
  {
    var room := if s == [] then -1 else Top(s).left;
    Frame(if n.Indefinite? && room != -1 then room - HeaderSize(n) else DeclaredLength(n), HeaderSize(n), n.Indefinite?)
  }

  /** The first octets of `b + x` that a frame with room for `b` lets through. */
  lemma WindowPrefix(s: seq<Frame>, out: Bytes, b: Bytes, x: Bytes) returns (y: Bytes)
    requires s == [] || Room(s, |b|)
    ensures Sane(Config(s, out, b + x, false))
    ensures Window(Config(s, out, b + x, false)) == b + y
  {
    var w := Window(Config(s, out, b + x, false));
    assert |w| >= |b| && w[..|b|] == b;
    y := w[|b|..];
  }

  lemma PushFrame(s: seq<Frame>, n: Node)
    requires WellFormed(n)
    requires s == [] || Room(s, |Encoded(n)|)
    ensures Push(s, HeaderSize(n), DeclaredLength(n)) == Frames(s + [NewFrame(s, n)])
  {
    hide HeaderSize, Encoded, LengthOctets, Body, Identifier, LengthAndContents;
    NodeParts(n);
    BodySize(n);
  }

  lemma BodySize(n: Node)
    requires WellFormed(n)
    ensures n.Indefinite? || |Body(n)| == DeclaredLength(n)
  {}

  /** The header of a segment opens its frame; what follows is its body. */
  lemma NodeTaken(allTags: seq<Tag>, n: Node, s: seq<Frame>, out: Bytes, x: Bytes)
    requires WellFormed(n) && n.tag != 0 && n.tag == Expected(allTags, |s|, n.tag)
    requires s == [] || Room(s, |Encoded(n)|)
    ensures Sane(Config(s, out, Encoded(n) + x, false))
    ensures Sane(Config(s + [NewFrame(s, n)], out, Body(n) + x, n.Primitive?))
    ensures Run(allTags, Config(s, out, Encoded(n) + x, false))
         == Run(allTags, Config(s + [NewFrame(s, n)], out, Body(n) + x, n.Primitive?))
  {
    hide Identifier, LengthOctets, Body, Encoded, LengthAndContents, Window, Push, Expected, Take, Run, FetchLength,
         WellFormed, DeclaredLength, HeaderSize, NewFrame;
    NodeParts(n);
    var t, l, d := Identifier(n.tag, IsConstructed(n)), LengthOctets(n), Body(n);
    var c := Config(s, out, Encoded(n) + x, false);
    var y := WindowPrefix(s, out, Encoded(n), x);
    assert Encoded(n) + y == t + (l + (d + y)) by { Assoc(t, l, d, y); }
    HeaderLength(n, d + y);
    HeaderAndFrame(s, n);
    PushFrame(s, n);
    TakeHeader(allTags, c, n.tag, IsConstructed(n), l + (d + y), |l|, DeclaredLength(n));
    assert c.b[|t| + |l|..] == d + x by { Assoc(t, l, d, x); }
    NotSatisfied(s, |Encoded(n)|);
    RunTake(allTags, c);
  }

  lemma Assoc(t: Bytes, l: Bytes, d: Bytes, y: Bytes)
    ensures t + (l + d) + y == t + (l + (d + y))
    ensures (t + (l + d) + y)[|t| + |l|..] == d + y
  {}

  lemma HeaderAndFrame(s: seq<Frame>, n: Node)
    requires WellFormed(n)
    requires s == [] || Room(s, |Encoded(n)|)
    ensures HeaderSize(n) == |Identifier(n.tag, IsConstructed(n))| + |LengthOctets(n)|
    ensures NewFrame(s, n).left >= -1
    ensures n.Primitive? ==> NewFrame(s, n).left >= 0
  {}

  lemma NotSatisfied(s: seq<Frame>, n: nat)
    requires s == [] || Room(s, n)
    requires n >= 1
    ensures !Satisfied(s)
  {}

  lemma CopyAll(allTags: seq<Tag>, s: seq<Frame>, f: Frame, out: Bytes, data: Bytes, x: Bytes)
    requires forall g :: g in s ==> g.left >= -1
    requires f.left == |data| && |out| + |data| < MAX_STRING
    ensures Sane(Config(s + [f], out, data + x, true))
    ensures Sane(Config(s + [Frame(0, f.got + |data|, f.wantNulls)], out + data, x, false))
    ensures Run(allTags, Config(s + [f], out, data + x, true))
         == Run(allTags, Config(s + [Frame(0, f.got + |data|, f.wantNulls)], out + data, x, false))
  {
    hide Take, Satisfied, Pop;
    var c := Config(s + [f], out, data + x, true);
    assert c.b[..|data|] == data && c.b[|data|..] == x;
    assert c.stack[..|c.stack| - 1] == s;
  }

  lemma PopDone(allTags: seq<Tag>, s: seq<Frame>, g: nat, out: Bytes, x: Bytes)
    requires Room(s, g)
    ensures Sane(Config(s + [Frame(0, g, false)], out, x, false))
    ensures Sane(Config(Charged(s, g), out, x, false))
    ensures Run(allTags, Config(s + [Frame(0, g, false)], out, x, false))
         == Run(allTags, Config(Charged(s, g), out, x, false))
  {
    hide Take;
    var st := s + [Frame(0, g, false)];
    assert st[..|st| - 2] == s[..|s| - 1];
    assert Pop(st) == Frames(Charged(s, g));
  }

  lemma EocTaken(allTags: seq<Tag>, s: seq<Frame>, f: Frame, out: Bytes, x: Bytes)
    requires forall g :: g in s ==> g.left >= -1
    requires f.wantNulls && (f.left == -1 || f.left >= 2)
    ensures Sane(Config(s + [f], out, [0, 0] + x, false))
    ensures Sane(Config(s + [Frame(0, f.got + 2, false)], out, x, false))
    ensures Run(allTags, Config(s + [f], out, [0, 0] + x, false))
         == Run(allTags, Config(s + [Frame(0, f.got + 2, false)], out, x, false))
  {
    hide FetchTag, FetchLength, Run, Expected, Push;
    var eoc: Bytes := [0, 0];
    var c := Config(s + [f], out, eoc + x, false);
    assert c.stack[..|s|] == s;
    var w := Window(c);
    assert w[0] == 0 && w[1] == 0;
    assert c.b[2..] == x;
    EocHeader(w);
    RunTake(allTags, c);
  }

  lemma EocHeader(w: Bytes)
    requires |w| >= 2 && w[0] == 0 && w[1] == 0
    ensures FetchTag(w) == Got(1, 0) && !Constructed(w[0]) && FetchLength(false, w[1..]) == Got(1, 0)
  {}

  /** A segment inside an open frame: its octets go to the output and are charged to the frame. */
  lemma {:induction false} SegmentRun(tag: Tag, n: Node, s: seq<Frame>, out: Bytes, x: Bytes)
    requires tag != 0 && WellFormed(n) && Segment(n, tag)
    requires Room(s, |Encoded(n)|)
    requires |out| + |Flat(n)| < MAX_STRING
    ensures Sane(Config(s, out, Encoded(n) + x, false))
    ensures Sane(Config(Charged(s, |Encoded(n)|), out + Flat(n), x, false))
    ensures Run([tag], Config(s, out, Encoded(n) + x, false))
         == Run([tag], Config(Charged(s, |Encoded(n)|), out + Flat(n), x, false))
    decreases n, 2
  {
    hide Run, Encoded, LengthAndContents, Identifier, Charged, NewFrame, HeaderSize, Contents, Flat, Body, Segments;
    NodeTaken([tag], n, s, out, x);
    SegmentBody(tag, n, s, out, x);
    PopDone([tag], s, |Encoded(n)|, out + Flat(n), x);
  }

  /** The body of a segment, its frame just opened, up to the satisfied frame. */
  lemma {:induction false} SegmentBody(tag: Tag, n: Node, s: seq<Frame>, out: Bytes, x: Bytes)
    requires tag != 0 && WellFormed(n) && (n.Primitive? || Segments(n.children, tag))
    requires s == [] || Room(s, |Encoded(n)|)
    requires |out| + |Flat(n)| < MAX_STRING
    ensures Sane(Config(s + [NewFrame(s, n)], out, Body(n) + x, n.Primitive?))
    ensures Sane(Config(s + [Frame(0, |Encoded(n)|, false)], out + Flat(n), x, false))
    ensures Run([tag], Config(s + [NewFrame(s, n)], out, Body(n) + x, n.Primitive?))
         == Run([tag], Config(s + [Frame(0, |Encoded(n)|, false)], out + Flat(n), x, false))
    decreases n, 1
  {
    hide Run, Encoded, LengthAndContents, Identifier, NewFrame, HeaderSize, Contents;
    OpenFrame(s, n);
    var f := NewFrame(s, n);
    match n
    case Primitive(_, c) =>
      CopyAll([tag], s, f, out, c, x);
    case Definite(_, kids) =>
      BodyRun(tag, kids, s, f, out, x);
    case Indefinite(_, kids) =>
      var eoc: Bytes := [0, 0];
      assert Body(n) + x == Contents(kids) + (eoc + x);
      BodyRun(tag, kids, s, f, out, eoc + x);
      EocTaken([tag], s, Charge(f, |Contents(kids)|), out + Flat(n), x);
  }

  lemma OpenFrame(s: seq<Frame>, n: Node)
    requires WellFormed(n)
    requires s == [] || Room(s, |Encoded(n)|)
    ensures var f := NewFrame(s, n);
            && f.got == HeaderSize(n)
            && f.wantNulls == n.Indefinite?
            && (n.Indefinite? ==> f.left == -1 || f.left >= |Body(n)|)
            && (!n.Indefinite? ==> f.left == |Body(n)|)
            && |Encoded(n)| == HeaderSize(n) + |Body(n)|
  {}

  /** The children of an open frame `f`. */
  lemma {:induction false} BodyRun(tag: Tag, kids: Nodes, s: seq<Frame>, f: Frame, out: Bytes, x: Bytes)
    requires tag != 0 && AllWellFormed(kids) && Segments(kids, tag)
    requires forall g :: g in s ==> g.left >= -1
    requires if f.left == -1 then f.wantNulls else f.left >= |Contents(kids)|
    requires |out| + |FlatAll(kids)| < MAX_STRING
    ensures Sane(Config(s + [f], out, Contents(kids) + x, false))
    ensures Sane(Config(s + [Charge(f, |Contents(kids)|)], out + FlatAll(kids), x, false))
    ensures Run([tag], Config(s + [f], out, Contents(kids) + x, false))
         == Run([tag], Config(s + [Charge(f, |Contents(kids)|)], out + FlatAll(kids), x, false))
    decreases kids, 3
  {
    hide Run, Encoded, Take;
    match kids
    case Nil =>
      assert Contents(kids) + x == x && out + FlatAll(kids) == out;
      assert Charge(f, 0) == f;
    case Cons(h, t) =>
      var f' := Charge(f, |Encoded(h)|);
      assert Contents(kids) + x == Encoded(h) + (Contents(t) + x);
      SegmentRun(tag, h, s + [f], out, Contents(t) + x);
      ChargedTop(s, f, |Encoded(h)|);
      BodyRun(tag, t, s, f', out + Flat(h), x);
      assert out + Flat(h) + FlatAll(t) == out + FlatAll(kids);
  }

  lemma ChargedTop(s: seq<Frame>, f: Frame, n: nat)
    ensures Charged(s + [f], n) == s + [Charge(f, n)]
  {}

  /** Any nesting of definite and indefinite segments, whatever tag replaces the outermost one and
      whatever follows: the machine stops exactly at the end with the primitive segments in order. */
  lemma ConstructedString(tag: Tag, n: Node, x: Bytes)
    requires tag != 0 && !n.Primitive? && n.tag != 0 && WellFormed(n) && Segments(n.children, tag)
    requires |Flat(n)| < MAX_STRING
    ensures Run([tag], Config([], [], Encoded(n) + x, false)) == Result(OK, Config([], Flat(n), x, false))
  {
    hide Encoded, LengthAndContents, Identifier, NewFrame, HeaderSize, Contents, Take, Run, Flat, Body;
    NodeTaken([tag], n, [], [], x);
    SegmentBody(tag, n, [], [], x);
    var d := Frame(0, |Encoded(n)|, false);
    assert [] + [d] == [d] && [] + Flat(n) == Flat(n);
    Finished([tag], d, Flat(n), x);
  }

  lemma Finished(allTags: seq<Tag>, d: Frame, out: Bytes, x: Bytes)
    requires d.left == 0 && !d.wantNulls
    ensures Run(allTags, Config([d], out, x, false)) == Result(OK, Config([], out, x, false))
  {}

  // ----- a segment with another tag is refused, wherever it stands

  function Append(a: Nodes, b: Nodes): (r: Nodes) {
    match a
    case Nil => b
    case Cons(h, t) => Cons(h, Append(t, b))
  }

  lemma {:induction false} AppendContents(a: Nodes, b: Nodes)
    requires AllWellFormed(Append(a, b))
    ensures AllWellFormed(a) && AllWellFormed(b) && Contents(Append(a, b)) == Contents(a) + Contents(b)
    decreases a
  {
    hide Encoded, WellFormed;
    match a
    case Nil =>
      NoNodes();
      assert [] + Contents(b) == Contents(b);
    case Cons(h, t) =>
      AppendContents(t, b);
      assert Encoded(h) + (Contents(t) + Contents(b)) == Encoded(h) + Contents(t) + Contents(b);
  }

  lemma NoNodes()
    ensures AllWellFormed(Nil) && Contents(Nil) == []
  {}

  lemma StrangeTag(allTags: seq<Tag>, c: Config)
    requires Sane(c) && !c.copying && c.stack != [] && !Satisfied(c.stack)
    requires FetchTag(Window(c)).Got? && FetchLength(Constructed(Window(c)[0]), Window(c)[FetchTag(Window(c)).used..]).Got?
    requires Window(c)[0] != 0 || !Top(c.stack).wantNulls
    requires FetchTag(Window(c)).value != Expected(allTags, |c.stack|, FetchTag(Window(c)).value)
    ensures Run(allTags, c).code == FAIL
  {
    hide FetchTag, FetchLength, Constructed, Expected, Satisfied, Window;
  }

  /** More is wanted only while a tag or a length is not all there; malformed ones are refused. */
  lemma TakeWaits(allTags: seq<Tag>, c: Config)
    requires Sane(c) && !c.copying
    ensures var w, r := Window(c), Take(allTags, c);
            && (r.code == WMORE <==> FetchTag(w) == More || (FetchTag(w).Got? && FetchLength(Constructed(w[0]), w[FetchTag(w).used..]) == More))
            && (FetchTag(w) == Bad || (FetchTag(w).Got? && FetchLength(Constructed(w[0]), w[FetchTag(w).used..]) == Bad) ==> r.code == FAIL)
  {
    hide FetchTag, FetchLength, Constructed, Window, Push, Expected;
  }

  /** A segment that reaches beyond the one around it is refused as soon as its length is read. */
  lemma OversizedRefused(allTags: seq<Tag>, c: Config)
    requires Sane(c) && !c.copying && c.stack != [] && !Satisfied(c.stack) && Top(c.stack).left != -1
    requires FetchTag(Window(c)).Got? && FetchLength(Constructed(Window(c)[0]), Window(c)[FetchTag(Window(c)).used..]).Got?
    requires Window(c)[0] != 0 || !Top(c.stack).wantNulls
    requires var t := FetchTag(Window(c));
             var l := FetchLength(Constructed(Window(c)[0]), Window(c)[t.used..]);
             l.value >= 0 && t.used + l.used + l.value > Top(c.stack).left
    ensures Run(allTags, c).code == FAIL
  {
    hide FetchTag, FetchLength, Constructed, Expected, Satisfied, Window;
  }

  lemma StrangeNode(tag: Tag, bad: Node, s: seq<Frame>, out: Bytes, z: Bytes)
    requires WellFormed(bad) && bad.tag != tag && bad.tag != 0 && |s| == 1 && Room(s, |Encoded(bad)|)
    ensures Sane(Config(s, out, Encoded(bad) + z, false)) && Run([tag], Config(s, out, Encoded(bad) + z, false)).code == FAIL
  {
    hide FetchTag, FetchLength, Identifier, LengthOctets, Body, Encoded, LengthAndContents, WellFormed, DeclaredLength, Run,
         Window, Constructed, Satisfied;
    NodeParts(bad);
    var t, l, d := Identifier(bad.tag, IsConstructed(bad)), LengthOctets(bad), Body(bad);
    var c := Config(s, out, Encoded(bad) + z, false);
    var y := WindowPrefix(s, out, Encoded(bad), z);
    assert Encoded(bad) + y == t + (l + (d + y)) by { Assoc(t, l, d, y); }
    var w := Window(c);
    assert w[|t|..] == l + (d + y) && w[0] == t[0];
    FetchTagRoundTrip(bad.tag, IsConstructed(bad), l + (d + y));
    HeaderLength(bad, d + y);
    NotEoc(bad.tag, IsConstructed(bad), l + (d + y));
    NotSatisfied(s, |Encoded(bad)|);
    StrangeTag([tag], c);
  }

  function Ending(n: Node): (b: Bytes) {
    if n.Indefinite? then [0, 0] else []
  }

  lemma BodyIs(n: Node)
    requires !n.Primitive? && WellFormed(n)
    ensures AllWellFormed(n.children) && Body(n) == Contents(n.children) + Ending(n)
  {
    hide Contents;
  }

  lemma FirstNode(bad: Node, rest: Nodes)
    requires AllWellFormed(Cons(bad, rest))
    ensures WellFormed(bad) && AllWellFormed(rest) && Contents(Cons(bad, rest)) == Encoded(bad) + Contents(rest)
  {
    hide Encoded;
  }

  lemma FiveParts(a: Bytes, b: Bytes, c: Bytes, d: Bytes, x: Bytes)
    ensures a + (b + c) + d + x == a + (b + (c + (d + x)))
    ensures |a + (b + c) + d| >= |a| + |b|
  {}

  lemma StrangeSegmentRefused(tag: Tag, n: Node, kids: Nodes, bad: Node, rest: Nodes, x: Bytes)
    requires tag != 0 && !n.Primitive? && n.tag != 0 && WellFormed(n) && n.children == Append(kids, Cons(bad, rest))
    requires Segments(kids, tag) && |FlatAll(kids)| < MAX_STRING && bad.tag != tag && bad.tag != 0
    ensures Run([tag], Config([], [], Encoded(n) + x, false)).code == FAIL
  {
    hide Encoded, LengthAndContents, Identifier, NewFrame, HeaderSize, Contents, Take, Run, FlatAll, Segments, Body, WellFormed,
         AllWellFormed, Append, Sane;
    BodyIs(n);
    AppendContents(kids, Cons(bad, rest));
    FirstNode(bad, rest);
    NodeTaken([tag], n, [], [], x);
    OpenFrame([], n);
    var f, k := NewFrame([], n), |Contents(kids)|;
    var z := Contents(rest) + (Ending(n) + x);
    FiveParts(Contents(kids), Encoded(bad), Contents(rest), Ending(n), x);
    OneFrame(f, k);
    assert [] + FlatAll(kids) == FlatAll(kids);
    BodyRun(tag, kids, [], f, [], Encoded(bad) + z);
    StrangeNode(tag, bad, [Charge(f, k)], FlatAll(kids), z);
  }

  lemma OneFrame(f: Frame, k: nat)
    ensures [] + [f] == [f] && [] + [Charge(f, k)] == [Charge(f, k)]
  {}

  /** A string never grows to the limit of the buffer. */
  lemma {:induction false} RunBounded(allTags: seq<Tag>, c: Config)
    requires Sane(c) && |c.out| < MAX_STRING
    ensures Run(allTags, c).code != FAIL ==> |Run(allTags, c).c.out| < MAX_STRING
    decreases |c.b|, |c.stack|, c.copying
  {
    hide Take, Pop, Satisfied, Run, Copy;
    RunUnfold(allTags, c);
    if c.copying {
      CopyBounded(c);
      if Copy(c).code == OK {
        RunBounded(allTags, Copy(c).c);
      }
    } else if Satisfied(c.stack) {
      if |c.stack| > 1 && Pop(c.stack).Frames? {
        RunBounded(allTags, c.(stack := Pop(c.stack).s));
      }
    } else {
      TakeOutput(allTags, c);
      if Take(allTags, c).code == OK {
        RunBounded(allTags, Take(allTags, c).c);
      }
    }
  }

  lemma CopyBounded(c: Config)
    requires Sane(c) && c.copying && |c.out| < MAX_STRING
    ensures |Copy(c).c.out| < MAX_STRING
    ensures c.b != [] && Top(c.stack).left > 0 && |c.out| + |c.b| >= MAX_STRING && |c.b| <= Top(c.stack).left ==> Copy(c).code == FAIL
  {}

  lemma TakeOutput(allTags: seq<Tag>, c: Config)
    requires Sane(c) && !c.copying
    ensures Take(allTags, c).c.out == c.out
  {
    hide FetchTag, FetchLength, Constructed, Expected, Push, Window;
  }

  // ----- the machine can be stopped and resumed anywhere

  function Extend(c: Config, x: Bytes): (r: Config) {
    c.(b := c.b + x)
  }

  /** Equal results, up to where a failing run stopped. */
  predicate Same(p: Result, q: Result) {
    p == q || (p.code == FAIL && q.code == FAIL)
  }

  lemma WindowGrows(c: Config, x: Bytes) returns (y: Bytes)
    requires Sane(c)
    ensures Window(Extend(c, x)) == Window(c) + y
  {
    var w, w' := Window(c), Window(Extend(c, x));
    assert |w| <= |w'| && w'[..|w|] == w;
    y := w'[|w|..];
  }

  lemma TakeStable(allTags: seq<Tag>, c: Config, x: Bytes)
    requires Sane(c) && !c.copying
    ensures var r, r' := Take(allTags, c), Take(allTags, Extend(c, x));
            && (r.code == FAIL ==> r'.code == FAIL)
            && (r.code == OK ==> r' == Result(OK, Extend(r.c, x)))
  {
    hide FetchTag, FetchLength, Constructed, Window, Push, Expected, Replace;
    var w := Window(c);
    var y := WindowGrows(c, x);
    if FetchTag(w) != More {
      FetchTagStable(w, y);
      var t := FetchTag(w);
      if t.Got? {
        var p := w[t.used..];
        assert (w + y)[t.used..] == p + y;
        assert (w + y)[0] == w[0];
        if FetchLength(Constructed(w[0]), p) != More {
          FetchLengthStable(Constructed(w[0]), p, y);
          var l := FetchLength(Constructed(w[0]), p);
          if l.Got? {
            assert (w + y)[1] == w[1];
            assert (c.b + x)[2..] == c.b[2..] + x;
            assert (c.b + x)[t.used + l.used..] == c.b[t.used + l.used..] + x;
          }
        }
      }
    }
  }

  lemma CopiedLess(c: Config, x: Bytes, n: nat)
    requires c.stack != [] && n <= |c.b|
    ensures Copied(Extend(c, x), n) == Extend(Copied(c, n), x)
  {}

  lemma CopiedTwice(c: Config, x: Bytes, k: nat)
    requires c.stack != [] && k <= |x|
    ensures Copied(Extend(Copied(c, |c.b|), x), k) == Copied(Extend(c, x), |c.b| + k)
  {}

  lemma CopyStable(c: Config, x: Bytes)
    requires Sane(c) && c.copying
    ensures var r, r' := Copy(c), Copy(Extend(c, x));
            && (r.code == FAIL ==> r'.code == FAIL)
            && (r.code == OK ==> r' == Result(OK, Extend(r.c, x)))
            && (r.code == WMORE ==> Same(r', Copy(Extend(r.c, x))))
  {
    hide Copied;
    var f := Top(c.stack);
    var r := Copy(c);
    if r.code == OK {
      CopiedLess(c, x, f.left);
    } else if r.code == WMORE {
      CopyRest(c, x);
    }
  }

  lemma CopyRest(c: Config, x: Bytes)
    requires Sane(c) && c.copying && Copy(c).code == WMORE
    ensures Same(Copy(Extend(c, x)), Copy(Extend(Copy(c).c, x)))
  {
    hide Copied;
    var f := Top(c.stack);
    var d := Copied(c, |c.b|);
    assert Copy(c) == Result(WMORE, d);
    CopiedAll(c);
    assert d.b + x == x;
    CopiedTwice(c, x, if |x| < f.left - |c.b| then |x| else f.left - |c.b|);
  }

  lemma CopiedAll(c: Config)
    requires c.stack != []
    ensures var d := Copied(c, |c.b|);
            && d.b == [] && |d.out| == |c.out| + |c.b| && d.stack != [] && d.copying == c.copying
            && Top(d.stack) == Frame(Top(c.stack).left - |c.b|, Top(c.stack).got + |c.b|, Top(c.stack).wantNulls)
  {}

  lemma RunUnfold(allTags: seq<Tag>, c: Config)
    requires Sane(c)
    ensures Run(allTags, c) ==
            if c.copying then (if Copy(c).code == OK then Run(allTags, Copy(c).c) else Copy(c))
            else if Satisfied(c.stack) then
              if |c.stack| == 1 then Result(OK, c.(stack := []))
              else if Pop(c.stack).Refused? then Result(FAIL, c)
              else Run(allTags, c.(stack := Pop(c.stack).s))
            else (if Take(allTags, c).code == OK then Run(allTags, Take(allTags, c).c) else Take(allTags, c))
  {}

  /** Feeding more octets later is the same as having had them from the start: a stopped run, given
      its unconsumed octets again and the new ones, ends as the run on everything would. */
  lemma {:induction false} RunResumes(allTags: seq<Tag>, c: Config, x: Bytes)
    requires Sane(c)
    ensures Sane(Extend(c, x))
    ensures var r, r' := Run(allTags, c), Run(allTags, Extend(c, x));
            && (r.code == FAIL ==> r'.code == FAIL)
            && (r.code == OK ==> r' == Result(OK, Extend(r.c, x)))
            && (r.code == WMORE ==> Sane(Extend(r.c, x)) && Same(r', Run(allTags, Extend(r.c, x))))
    decreases |c.b|, |c.stack|, c.copying
  {
    hide Copy, Take, Pop, Satisfied, Run;
    RunUnfold(allTags, c);
    RunUnfold(allTags, Extend(c, x));
    if c.copying {
      CopyStable(c, x);
      if Copy(c).code == OK {
        RunResumes(allTags, Copy(c).c, x);
      } else if Copy(c).code == WMORE {
        RunUnfold(allTags, Extend(Copy(c).c, x));
      }
    } else if Satisfied(c.stack) {
      if |c.stack| > 1 && Pop(c.stack).Frames? {
        RunResumes(allTags, c.(stack := Pop(c.stack).s), x);
      }
    } else {
      TakeStable(allTags, c, x);
      if Take(allTags, c).code == OK {
        RunResumes(allTags, Take(allTags, c).c, x);
      }
    }
  }

  function Concat(pieces: seq<Bytes>): (b: Bytes) {
    if pieces == [] then [] else pieces[0] + Concat(pieces[1..])
  }

  /** One call per piece, the unconsumed octets presented again, until done or wrong. */
  function FeedRun(allTags: seq<Tag>, c: Config, pieces: seq<Bytes>): (r: Result)
    requires Sane(c)
    decreases |pieces|
  {
    var r := Run(allTags, c);
    if pieces == [] then r
    else if r.code == WMORE then FeedRun(allTags, Extend(r.c, pieces[0]), pieces[1..])
    else Result(r.code, Extend(r.c, Concat(pieces)))
  }

  /** However the octets are cut into pieces, the outcome is that of one run on all of them. */
  lemma {:induction false} PiecesRun(allTags: seq<Tag>, c: Config, pieces: seq<Bytes>)
    requires Sane(c)
    ensures Sane(Extend(c, Concat(pieces)))
    ensures Same(FeedRun(allTags, c, pieces), Run(allTags, Extend(c, Concat(pieces))))
    decreases |pieces|
  {
    hide Run;
    if pieces == [] {
      assert c.b + [] == c.b;
    } else {
      var x, rest := pieces[0], Concat(pieces[1..]);
      var r := Run(allTags, c);
      RunResumes(allTags, c, x + rest);
      if r.code == WMORE {
        PiecesRun(allTags, Extend(r.c, x), pieces[1..]);
        assert r.c.b + x + rest == r.c.b + (x + rest);
      }
    }
  }

  /** An element of the live stack changed in place. */
  lemma Updated(frames: seq<Frame>, cur: nat, f: Frame)
    requires 0 < cur <= |frames|
    ensures frames[cur - 1 := f][..cur] == Replace(frames[..cur], f)
  {}

  /** `OS__add_stack_el`: the element above `cur` is used again, or one is added. */
  method AddElement(frames: seq<Frame>, cur: nat, f: Frame) returns (r: seq<Frame>)
    requires cur <= |frames|
    ensures cur < |r| && r[..cur + 1] == frames[..cur] + [f]
    ensures |r| == if cur < |frames| then |frames| else |frames| + 1
  {
    if cur < |frames| {
      r := frames[cur := f];
    } else {
      r := frames + [f];
    }
  }

  /** The body of the loop of phase 1: one TL becomes an expectation, or ends one. */
  method TakeTL(allTags: seq<Tag>, frames0: seq<Frame>, cur0: nat, out: Bytes, b0: Bytes)
      returns (code: Code, frames: seq<Frame>, cur: nat, b: Bytes, copying: bool)
    requires cur0 <= |frames0| && Sane(Config(frames0[..cur0], out, b0, false))
    ensures cur <= |frames| && Result(code, Config(frames[..cur], out, b, copying)) == Take(allTags, Config(frames0[..cur0], out, b0, false))
  {
    hide FetchTag, FetchLength, Constructed, Push, Sane, Expected, Window;
    code, frames, cur, b, copying := FAIL, frames0, cur0, b0, false;
    ghost var c := Config(frames0[..cur0], out, b0, false);
    var w := if cur == 0 || frames[cur - 1].left == -1 then b else Cut(b, FrameRoom(frames, cur, out, b));
    WindowIs(frames, cur, out, b);
    var t := BerFetchTag(w);
    if t.Bad? { return; }
    if t.More? { code := WMORE; return; }
    var constr := Constructed(w[0]);
    var l := BerFetchLength(constr, w[t.used..]);
    if l.Bad? { return; }
    if l.More? { code := WMORE; return; }
    if cur > 0 && frames[cur - 1].wantNulls && w[0] == 0 && w[1] == 0 {
      Updated(frames, cur, Frame(0, frames[cur - 1].got + 2, false));
      frames, b, code := frames[cur - 1 := Frame(0, frames[cur - 1].got + 2, false)], b[2..], OK;
      return;
    }
    if t.value != Expected(allTags, cur, t.value) { return; }
    var used, want := t.used + l.used, l.value == INDEFINITE;
    PushIs(frames[..cur], used, l.value);
    var left := l.value;
    if cur > 0 && frames[cur - 1].left != -1 {
      var room := frames[cur - 1].left;
      if room < used + (if want then 0 else l.value) { return; }
      left := if want then room - used else l.value;
    }
    frames := AddElement(frames, cur, Frame(left, used, want));
    cur, b, copying, code := cur + 1, b[used..], !constr, OK;
  }

  function FrameRoom(frames: seq<Frame>, cur: nat, out: Bytes, b: Bytes): (n: nat)
    requires 0 < cur <= |frames| && Sane(Config(frames[..cur], out, b, false)) && frames[cur - 1].left != -1
  {
    assert frames[..cur][cur - 1] in frames[..cur];
    frames[cur - 1].left
  }

  lemma WindowIs(frames: seq<Frame>, cur: nat, out: Bytes, b: Bytes)
    requires cur <= |frames| && Sane(Config(frames[..cur], out, b, false))
    ensures Window(Config(frames[..cur], out, b, false)) ==
            if cur == 0 || frames[cur - 1].left == -1 then b else Cut(b, FrameRoom(frames, cur, out, b))
  {}

  lemma PushIs(s: seq<Frame>, used: nat, len: int)
    requires len >= -1
    ensures var want := len == INDEFINITE;
            if s != [] && Top(s).left != -1 then
              Push(s, used, len) == (if Top(s).left < used + (if want then 0 else len) then Refused
                                     else Frames(s + [Frame(if want then Top(s).left - used else len, used, want)]))
            else Push(s, used, len) == Frames(s + [Frame(len, used, want)])
  {}

  lemma CopyIs(frames: seq<Frame>, cur: nat, out: Bytes, b: Bytes)
    requires cur <= |frames| && Sane(Config(frames[..cur], out, b, true))
    ensures cur > 0 && frames[cur - 1].left >= 0
    ensures var f := frames[cur - 1];
            var n := if |b| < f.left then |b| else f.left;
            var frames' := frames[cur - 1 := Frame(f.left - n, f.got + n, f.wantNulls)];
            Copy(Config(frames[..cur], out, b, true)) ==
              if n > 0 && |out| + n >= MAX_STRING then Result(FAIL, Config(frames[..cur], out, b, true))
              else Result(if f.left != n then WMORE else OK, Config(frames'[..cur], out + b[..n], b[n..], f.left != n))
  {
    var f := frames[cur - 1];
    var n := if |b| < f.left then |b| else f.left;
    Updated(frames, cur, Frame(f.left - n, f.got + n, f.wantNulls));
  }

  lemma PopIs(frames: seq<Frame>, cur: nat)
    requires 2 <= cur <= |frames| && forall f :: f in frames[..cur] ==> f.left >= -1
    ensures var f, p := frames[cur - 1], frames[cur - 2];
            Pop(frames[..cur]) ==
              if p.left != -1 && p.left < f.got then Refused
              else Frames(frames[cur - 2 := Charge(p, f.got)][..cur - 1])
  {
    var f, p := frames[cur - 1], frames[cur - 2];
    assert frames[cur - 2 := Charge(p, f.got)][..cur - 1] == frames[..cur][..cur - 2] + [Charge(p, f.got)];
  }

  /** The loops of phases 1 and 2. Elements above `cur` are kept for reuse, as `OS__add_stack_el`
      does; `frames[..cur]` is the stack. */
  method RunMachine(allTags: seq<Tag>, c0: Config) returns (r: Result)
    requires Sane(c0)
    ensures r == Run(allTags, c0)
  {
    hide Copy, Take, Pop, Run, Sane;
    var frames, cur := c0.stack, |c0.stack|;
    var out, b, copying := c0.out, c0.b, c0.copying;
    assert c0.stack[..cur] == c0.stack;
    while true
      invariant 0 <= cur <= |frames|
      invariant Sane(Config(frames[..cur], out, b, copying))
      invariant Run(allTags, c0) == Run(allTags, Config(frames[..cur], out, b, copying))
      decreases |b|, cur, copying
    {
      ghost var c := Config(frames[..cur], out, b, copying);
      RunUnfold(allTags, c);
      if copying {
        CopyIs(frames, cur, out, b);
        var sel := frames[cur - 1];
        var n := if |b| < sel.left then |b| else sel.left;
        if n > 0 && |out| + n >= MAX_STRING { return Result(FAIL, Config(frames[..cur], out, b, true)); }
        frames := frames[cur - 1 := Frame(sel.left - n, sel.got + n, sel.wantNulls)];
        out, b := out + b[..n], b[n..];
        if sel.left != n { return Result(WMORE, Config(frames[..cur], out, b, true)); }
        copying := false;
      } else if cur > 0 && frames[cur - 1].left <= 0 && !frames[cur - 1].wantNulls {
        assert Satisfied(c.stack);
        if cur == 1 {
          return Result(OK, Config([], out, b, false));
        }
        PopSane(c);
        PopIs(frames, cur);
        var sel, prev := frames[cur - 1], frames[cur - 2];
        if prev.left != -1 && prev.left < sel.got { return Result(FAIL, Config(frames[..cur], out, b, false)); }
        frames, cur := frames[cur - 2 := Charge(prev, sel.got)], cur - 1;
      } else {
        assert !Satisfied(c.stack);
        var code;
        code, frames, cur, b, copying := TakeTL(allTags, frames, cur, out, b);
        if code != OK { return Result(code, Config(frames[..cur], out, b, copying)); }
      }
    }
  }

  lemma PopSane(c: Config)
    requires Sane(c) && !c.copying && |c.stack| >= 2
    ensures forall f :: f in c.stack ==> f.left >= -1
    ensures Pop(c.stack).Frames? ==> Sane(c.(stack := Pop(c.stack).s))
  {}

  // ----- the decoder with its context

  /** `_asn_ctx` and the collected octets; phases as in the source, 4 is done. */
  datatype Ctx = Ctx(phase: nat, step: nat, left: int, buf: Bytes, stack: seq<Frame>)

  const FRESH: Ctx := Ctx(0, 0, 0, [], [])

  datatype Decoded = Decoded(code: Code, consumed: nat, ctx: Ctx)

  function DecodeMachine(allTags: seq<Tag>, ctx: Ctx, b: Bytes): (r: Decoded)
    ensures r.consumed <= |b|
  {
    var c := Config(ctx.stack, ctx.buf, b, ctx.phase == 2);
    if !Sane(c) then Decoded(FAIL, 0, ctx)
    else
      var r := Run(allTags, c);
      var phase := if r.code == OK then 4 else if r.c.copying then 2 else 1;
      Decoded(r.code, |b| - |r.c.b|, ctx.(phase := phase, buf := r.c.out, stack := r.c.stack))
  }

  /** Phase 3: the primitive form, `used` octets having been consumed before `b`. */
  function DecodePrimitive(ctx: Ctx, b: Bytes, used: nat): (r: Decoded)
    ensures r.consumed <= used + |b|
  {
    if ctx.left < 0 then Decoded(FAIL, used, ctx)
    else if |b| < ctx.left then
      if b == [] then Decoded(WMORE, used, ctx)
      else if |ctx.buf| + |b| >= MAX_STRING then Decoded(FAIL, used, ctx)
      else Decoded(WMORE, used + |b|, ctx.(left := ctx.left - |b|, buf := ctx.buf + b))
    else if |ctx.buf| + ctx.left >= MAX_STRING then Decoded(FAIL, used, ctx)
    else Decoded(OK, used + ctx.left, ctx.(phase := 4, left := 0, buf := ctx.buf + b[..ctx.left]))
  }

  /** `OCTET_STRING_decode_ber`. A constructed form is re-read by the machine from its outer TL. */
  function Decode(tags: seq<Tag>, allTags: seq<Tag>, ctx: Ctx, b: Bytes, mode: int): (r: Decoded)
    ensures r.consumed <= |b|
  {
    if ctx.phase == 0 then
      var k := CheckTags(tags, true, ctx.step, b, mode, -1);
      var ctx' := ctx.(step := k.step);
      if k.code != OK then Decoded(k.code, k.consumed, ctx')
      else if k.form then DecodeMachine(allTags, ctx'.(phase := 1, left := k.length), b)
      else DecodePrimitive(ctx'.(phase := 3, left := k.length), b[k.consumed..], k.consumed)
    else if ctx.phase <= 2 then DecodeMachine(allTags, ctx, b)
    else if ctx.phase == 3 then DecodePrimitive(ctx, b, 0)
    else Decoded(OK, 0, ctx)
  }

  /** `OCTET_STRING_encode_der` for this subvariant. */
  function Encode(tags: seq<Tag>, s: Bytes, mode: int, tag: Tag): (b: Bytes) {
    WriteChain(TagsToWrite(tags, mode, tag), |s|, false) + s
  }

  /** The decoder stands where the octets `suf` of the encoding of `s` are still to come. */
  predicate At(tags: seq<Tag>, s: Bytes, mode: int, tag: Tag, ctx: Ctx, suf: Bytes) {
    || (&& ctx.phase == 0 && ctx.step < |TagsToWrite(tags, mode, tag)| && ctx.buf == [] && ctx.stack == []
        && suf == ChainFrom(tags, mode, tag, ctx.step, |s|, false) + s)
    || (&& ctx.phase == 3 && ctx.left == |suf| && ctx.buf + suf == s)
  }

  predicate Resumed(tags: seq<Tag>, s: Bytes, mode: int, tag: Tag, suf: Bytes, b: Bytes, r: Decoded) {
    if suf <= b then r.code == OK && r.consumed == |suf| && r.ctx.buf == s && r.ctx.phase == 4
    else r.code == WMORE && r.consumed <= |b| && r.consumed <= |suf| && At(tags, s, mode, tag, r.ctx, suf[r.consumed..])
  }

  lemma PrimitiveResume(ctx: Ctx, s: Bytes, suf: Bytes, b: Bytes, used: nat)
    requires ctx.left == |suf| && ctx.buf + suf == s && |s| < MAX_STRING && ctx.phase == 3
    requires Comparable(suf, b)
    ensures var r := DecodePrimitive(ctx, b, used);
            if suf <= b then r.code == OK && r.consumed == used + |suf| && r.ctx.buf == s && r.ctx.phase == 4
            else
              && r.code == WMORE
              && used <= r.consumed <= used + |b| && r.consumed <= used + |suf|
              && r.ctx.phase == 3
              && r.ctx.left == |suf[r.consumed - used..]|
              && r.ctx.buf + suf[r.consumed - used..] == s
  {}

  lemma StartsAt(tags: seq<Tag>, s: Bytes, mode: int, tag: Tag)
    requires TagsToWrite(tags, mode, tag) != []
    ensures At(tags, s, mode, tag, FRESH, Encode(tags, s, mode, tag))
  {}

  lemma DecodeUnfold(tags: seq<Tag>, allTags: seq<Tag>, ctx: Ctx, b: Bytes, mode: int)
    ensures var r := Decode(tags, allTags, ctx, b, mode);
            && (ctx.phase == 0 ==>
                  var k := CheckTags(tags, true, ctx.step, b, mode, -1);
                  && k.consumed <= |b|
                  && (k.code != OK ==> r == Decoded(k.code, k.consumed, ctx.(step := k.step)))
                  && (k.code == OK && !k.form ==>
                        r == DecodePrimitive(ctx.(step := k.step, phase := 3, left := k.length), b[k.consumed..], k.consumed)))
            && (ctx.phase == 3 ==> r == DecodePrimitive(ctx, b, 0))
  {
    hide CheckTags, DecodePrimitive, DecodeMachine;
  }

  /** Before the contents are reached. */
  lemma StringAtTags(tags: seq<Tag>, allTags: seq<Tag>, s: Bytes, mode: int, tag: Tag, ctx: Ctx, b: Bytes)
    requires mode in {-1, 0, 1} && (mode == -1 ==> tags != []) && |s| < MAX_STRING
    requires ctx.phase == 0 && ctx.step < |TagsToWrite(tags, mode, tag)| && ctx.buf == [] && ctx.stack == []
    requires Comparable(ChainFrom(tags, mode, tag, ctx.step, |s|, false) + s, b)
    requires |ChainFrom(tags, mode, tag, ctx.step, |s|, false) + s| <= MAX_LENGTH
    ensures Resumed(tags, s, mode, tag, ChainFrom(tags, mode, tag, ctx.step, |s|, false) + s, b, Decode(tags, allTags, ctx, b, mode))
  {
    hide TagsToWrite, CheckTags, DecodePrimitive, Decode, Comparable, ChainFrom;
    ChainThenBody(tags, mode, tag, -1, false, s, true, ctx.step, b);
    DecodeUnfold(tags, allTags, ctx, b, mode);
    var chain := ChainFrom(tags, mode, tag, ctx.step, |s|, false);
    if chain <= b {
      var k := CheckTags(tags, true, ctx.step, b, mode, -1);
      var ctx' := ctx.(step := k.step, phase := 3, left := k.length);
      assert [] + s == s;
      PrimitiveResume(ctx', s, s, b[|chain|..], |chain|);
      var r := DecodePrimitive(ctx', b[|chain|..], |chain|);
      if !(s <= b[|chain|..]) {
        BodyRest(chain, s, r.consumed);
      }
    }
  }

  /** The primitive form, stopped anywhere and resumed with any further octets. */
  lemma StringResume(tags: seq<Tag>, allTags: seq<Tag>, s: Bytes, mode: int, tag: Tag, ctx: Ctx, suf: Bytes, b: Bytes)
    requires mode in {-1, 0, 1} && (mode == -1 ==> tags != [])
    requires At(tags, s, mode, tag, ctx, suf) && Comparable(suf, b)
    requires |suf| <= MAX_LENGTH && |s| < MAX_STRING
    ensures Resumed(tags, s, mode, tag, suf, b, Decode(tags, allTags, ctx, b, mode))
  {
    hide TagsToWrite, DecodePrimitive, Decode, Comparable, ChainFrom;
    if ctx.phase == 0 {
      StringAtTags(tags, allTags, s, mode, tag, ctx, b);
    } else {
      DecodeUnfold(tags, allTags, ctx, b, mode);
      PrimitiveResume(ctx, s, suf, b, 0);
    }
  }

  lemma BodyRest(chain: Bytes, s: Bytes, n: nat)
    requires |chain| <= n <= |chain| + |s|
    ensures (chain + s)[n..] == s[n - |chain|..]
  {}

  lemma CheckOuterTL(tag: Tag, n: Node, x: Bytes, mode: int)
    requires mode in {-1, 0} && (mode == 0 ==> n.tag == tag)
    requires WellFormed(n) && !n.Primitive? && n.tag != 0
    ensures var r := CheckTags([tag], true, 0, Encoded(n) + x, mode, -1);
            r.code == OK && r.form
  {
    hide Identifier, LengthOctets, Body, Encoded, LengthAndContents, FetchTag, FetchLength, WellFormed, DeclaredLength,
         SerializeLength, Contents, Cut;
    NodeParts(n);
    var t, l, d := Identifier(n.tag, true), LengthOctets(n), Body(n);
    assert Encoded(n) + x == t + (l + (d + x)) by { Assoc(t, l, d, x); }
    FetchTagRoundTrip(n.tag, true, l + (d + x));
    HeaderLength(n, d + x);
    CheckOneTL(tag, mode, t, l + (d + x), n.tag, |l|, DeclaredLength(n));
  }

  lemma CheckOneTL(tag: Tag, mode: int, t: Bytes, w: Bytes, seen: Tag, ll: nat, len: int)
    requires mode in {-1, 0} && (mode == 0 ==> seen == tag)
    requires |t| >= 1 && Constructed(t[0]) && FetchTag(t + w) == Got(|t|, seen)
    requires FetchLength(true, w) == Got(ll, len)
    ensures CheckTags([tag], true, 0, t + w, mode, -1).code == OK
    ensures CheckTags([tag], true, 0, t + w, mode, -1).form
  {
    hide FetchTag, FetchLength, Constructed, Cut;
    var b := t + w;
    assert b[|t|..] == w;
    assert b[0] == t[0];
    var v := CheckTL([tag], mode, -1, b, 0, 0, NONE, 0);
    assert v == Accept(|t| + ll, len, true);
    LoopEnds(tag, mode, b[v.used..], 1, v.used, NONE, 1, len);
    LoopEnds(tag, mode, Cut(b[v.used..], if len < 0 then 0 else len), 1, v.used, len, 0, len);
  }

  lemma LoopEnds(tag: Tag, mode: int, b: Bytes, step: nat, used: nat, limit: int, eocs: nat, len: int)
    ensures var r := CheckLoop([tag], mode, -1, true, b, 1, step, used, limit, eocs, len, true);
            r.code == OK && r.form
  {}

  /** `OCTET_STRING_decode_ber` in one call on a constructed encoding, tagged or IMPLICITly retagged:
      the tag check only peeks, the machine reads the string from its outer TL. */
  lemma ConstructedDecode(tag: Tag, n: Node, x: Bytes, mode: int)
    requires mode in {-1, 0} && (mode == 0 ==> n.tag == tag)
    requires tag != 0 && !n.Primitive? && n.tag != 0 && WellFormed(n) && Segments(n.children, tag)
    requires |Flat(n)| < MAX_STRING
    ensures var r := Decode([tag], [tag], FRESH, Encoded(n) + x, mode);
            r.code == OK && r.consumed == |Encoded(n)| && r.ctx.buf == Flat(n)
  {
    hide CheckTags, Run, Flat, Encoded, WellFormed, Segments;
    CheckOuterTL(tag, n, x, mode);
    ConstructedString(tag, n, x);
  }

  // ----- a constructed string in pieces

  /** The octets not consumed are the last ones. */
  lemma {:induction false} RunSuffix(allTags: seq<Tag>, c: Config)
    requires Sane(c)
    ensures var r := Run(allTags, c).c; |r.b| <= |c.b| && r.b == c.b[|c.b| - |r.b|..]
    decreases |c.b|, |c.stack|, c.copying
  {
    hide Take, Pop, Satisfied, Run, Copy;
    RunUnfold(allTags, c);
    if c.copying {
      CopySuffix(c);
      if Copy(c).code == OK {
        RunSuffix(allTags, Copy(c).c);
      }
    } else if Satisfied(c.stack) {
      if |c.stack| > 1 && Pop(c.stack).Frames? {
        RunSuffix(allTags, c.(stack := Pop(c.stack).s));
      }
    } else {
      TakeSuffix(allTags, c);
      if Take(allTags, c).code == OK {
        RunSuffix(allTags, Take(allTags, c).c);
      }
    }
  }

  lemma CopySuffix(c: Config)
    requires Sane(c) && c.copying
    ensures var r := Copy(c).c; |r.b| <= |c.b| && r.b == c.b[|c.b| - |r.b|..]
  {}

  lemma TakeSuffix(allTags: seq<Tag>, c: Config)
    requires Sane(c) && !c.copying
    ensures var r := Take(allTags, c).c; |r.b| <= |c.b| && r.b == c.b[|c.b| - |r.b|..]
  {
    hide FetchTag, FetchLength, Constructed, Push, Expected, Replace;
  }

  /** One call for each piece, the octets not consumed presented again in front of it. */
  function FeedString(tags: seq<Tag>, allTags: seq<Tag>, ctx: Ctx, kept: Bytes, pieces: seq<Bytes>, mode: int): (r: Decoded)
    decreases |pieces|
  {
    if pieces == [] then Decoded(WMORE, 0, ctx)
    else
      var b := kept + pieces[0];
      var d := Decode(tags, allTags, ctx, b, mode);
      if d.code != WMORE then d
      else
        var r := FeedString(tags, allTags, d.ctx, b[d.consumed..], pieces[1..], mode);
        Decoded(r.code, d.consumed + r.consumed, r.ctx)
  }

  predicate InMachine(ctx: Ctx) {
    ctx.phase == 1 || ctx.phase == 2
  }

  function Machine(ctx: Ctx, b: Bytes): (c: Config) {
    Config(ctx.stack, ctx.buf, b, ctx.phase == 2)
  }

  lemma MachineStep(tags: seq<Tag>, allTags: seq<Tag>, ctx: Ctx, b: Bytes, mode: int)
    requires InMachine(ctx) && Sane(Machine(ctx, b))
    ensures var r, d := Run(allTags, Machine(ctx, b)), Decode(tags, allTags, ctx, b, mode);
            && d.code == r.code && |r.c.b| <= |b| && d.consumed == |b| - |r.c.b| && d.ctx.buf == r.c.out
            && (r.code == WMORE ==> InMachine(d.ctx) && Machine(d.ctx, b[d.consumed..]) == r.c)
  {
    hide Run, Sane, CheckTags;
    RunSuffix(allTags, Machine(ctx, b));
  }

  /** Inside the machine, the pieces come to what one run on all of them comes to. */
  lemma {:induction false} MachineFeeds(tags: seq<Tag>, allTags: seq<Tag>, ctx: Ctx, kept: Bytes, pieces: seq<Bytes>, mode: int)
    requires InMachine(ctx) && pieces != [] && Sane(Machine(ctx, kept + Concat(pieces)))
    requires Run(allTags, Machine(ctx, kept + Concat(pieces))).code != FAIL
    ensures var all := kept + Concat(pieces);
            var r, d := Run(allTags, Machine(ctx, all)), FeedString(tags, allTags, ctx, kept, pieces, mode);
            && d.code == r.code
            && (r.code == OK ==> |r.c.b| <= |all| && d.consumed == |all| - |r.c.b| && d.ctx.buf == r.c.out)
    decreases |pieces|
  {
    hide Run, Decode, Sane, Concat;
    ConcatFirst(pieces);
    var p, rest := pieces[0], Concat(pieces[1..]);
    var b := kept + p;
    assert kept + Concat(pieces) == b + rest;
    SaneMore(ctx, b, rest);
    var c := Machine(ctx, b);
    MachineStep(tags, allTags, ctx, b, mode);
    RunResumes(allTags, c, rest);
    var d := Decode(tags, allTags, ctx, b, mode);
    if d.code == WMORE {
      var k := b[d.consumed..];
      if pieces[1..] == [] {
        ConcatNone(pieces[1..]);
        assert b + rest == b;
      } else {
        MachineFeeds(tags, allTags, d.ctx, k, pieces[1..], mode);
      }
    }
  }

  lemma ConcatFirst(pieces: seq<Bytes>)
    requires pieces != []
    ensures Concat(pieces) == pieces[0] + Concat(pieces[1..])
  {}

  lemma ConcatNone(pieces: seq<Bytes>)
    requires pieces == []
    ensures Concat(pieces) == []
  {}

  lemma SaneMore(ctx: Ctx, b: Bytes, x: Bytes)
    ensures Sane(Machine(ctx, b)) <==> Sane(Machine(ctx, b + x))
    ensures Machine(ctx, b + x) == Extend(Machine(ctx, b), x)
  {}

  /** The header of a constructed encoding, in a buffer that agrees with it. */
  predicate HeaderSeen(n: Node, b: Bytes)
    requires WellFormed(n)
  {
    var t := Identifier(n.tag, true);
    && FetchTag(b) == Got(|t|, n.tag) && Constructed(b[0])
    && FetchLength(true, b[|t|..]) == Got(|LengthOctets(n)|, DeclaredLength(n))
  }

  predicate HeaderAwaited(n: Node, b: Bytes) {
    var t := Identifier(n.tag, true);
    || FetchTag(b) == More
    || (FetchTag(b) == Got(|t|, n.tag) && Constructed(b[0]) && FetchLength(true, b[|t|..]) == More)
  }

  lemma HeaderThere(n: Node, b: Bytes)
    requires WellFormed(n) && !n.Primitive? && Comparable(Encoded(n), b) && HeaderSize(n) <= |b|
    ensures HeaderSeen(n, b)
  {
    hide FetchTag, FetchLength, Identifier, LengthOctets, Body, Encoded, LengthAndContents, DeclaredLength, WellFormed, Contents;
    NodeParts(n);
    HeaderIs(n);
    var t, l, d := Identifier(n.tag, true), LengthOctets(n), Body(n);
    assert Encoded(n) == t + (l + d);
    var x := b[HeaderSize(n)..];
    HeaderPrefix(t, l, d, b);
    FetchTagRoundTrip(n.tag, true, l + x);
    HeaderLength(n, x);
  }

  lemma HeaderMissing(n: Node, b: Bytes)
    requires WellFormed(n) && !n.Primitive? && Comparable(Encoded(n), b) && HeaderSize(n) > |b|
    ensures HeaderAwaited(n, b)
  {
    hide FetchTag, FetchLength, Identifier, LengthOctets, Body, Encoded, LengthAndContents, DeclaredLength, WellFormed, Contents;
    NodeParts(n);
    HeaderIs(n);
    var t, l, d := Identifier(n.tag, true), LengthOctets(n), Body(n);
    var y := Encoded(n)[|b|..];
    assert Encoded(n) == t + (l + d) && Encoded(n) == b + y;
    FetchTagRoundTrip(n.tag, true, l + d);
    if FetchTag(b) != More {
      FetchTagStable(b, y);
      assert b[0] == (t + (l + d))[0] == t[0];
      LengthMissing(n, t, l, d, b, y);
    }
  }

  lemma LengthMissing(n: Node, t: Bytes, l: Bytes, d: Bytes, b: Bytes, y: Bytes)
    requires WellFormed(n) && !n.Primitive? && l == LengthOctets(n)
    requires t + (l + d) == b + y && |t| <= |b| < |t| + |l|
    ensures FetchLength(true, b[|t|..]) == More
  {
    hide FetchLength, LengthOctets, DeclaredLength, WellFormed;
    var p := b[|t|..];
    assert p + y == (b + y)[|t|..] == (t + (l + d))[|t|..] == l + d;
    HeaderLength(n, d);
    if FetchLength(true, p) != More {
      FetchLengthStable(true, p, y);
    }
  }

  lemma HeaderPrefix(t: Bytes, l: Bytes, d: Bytes, b: Bytes)
    requires Comparable(t + (l + d), b) && |t| + |l| <= |b|
    ensures b == t + (l + b[|t| + |l|..]) && b[|t|..] == l + b[|t| + |l|..]
    ensures |t| > 0 ==> b[0] == t[0]
  {}

  /** The tag check on a buffer that agrees with the encoding: it peeks at a complete header, and
      consumes nothing of one that is not complete. */
  lemma OuterChecked(tag: Tag, n: Node, b: Bytes, mode: int)
    requires mode in {-1, 0} && (mode == 0 ==> n.tag == tag)
    requires WellFormed(n) && !n.Primitive? && Comparable(Encoded(n), b)
    ensures var r := CheckTags([tag], true, 0, b, mode, -1);
            if HeaderSize(n) <= |b| then r.code == OK && r.form else r == Stop(WMORE, true, 0, 0)
  {
    hide Identifier, LengthOctets, Encoded, FetchTag, FetchLength, WellFormed, DeclaredLength, Constructed, Cut, Comparable;
    DeclaredIs(n);
    if HeaderSize(n) <= |b| {
      HeaderThere(n, b);
    } else {
      HeaderMissing(n, b);
    }
    var t, len := Identifier(n.tag, true), DeclaredLength(n);
    var v := CheckTL([tag], mode, -1, b, 0, 0, NONE, 0);
    if HeaderSize(n) <= |b| {
      assert v == Accept(HeaderSize(n), len, true);
      LoopEnds(tag, mode, b[v.used..], 1, v.used, NONE, 1, len);
      LoopEnds(tag, mode, Cut(b[v.used..], if len < 0 then 0 else len), 1, v.used, len, 0, len);
    } else {
      assert v == Want;
    }
  }

  lemma DeclaredIs(n: Node)
    requires WellFormed(n) && !n.Primitive?
    ensures DeclaredLength(n) == INDEFINITE || DeclaredLength(n) >= 0
    ensures HeaderSize(n) == |Identifier(n.tag, true)| + |LengthOctets(n)|
    ensures HeaderSize(n) <= |Encoded(n)|
  {
    NodeParts(n);
  }

  /** A proper prefix of a constructed string leaves the machine wanting more. */
  lemma PrefixWantsMore(tag: Tag, n: Node, b: Bytes)
    requires tag != 0 && !n.Primitive? && n.tag != 0 && WellFormed(n) && Segments(n.children, tag)
    requires |Flat(n)| < MAX_STRING && b < Encoded(n)
    ensures Run([tag], Config([], [], b, false)).code == WMORE
  {
    hide Run, Encoded, WellFormed, Segments, Flat;
    var y, c := Encoded(n)[|b|..], Config([], [], b, false);
    assert b + y == Encoded(n) && Encoded(n) + [] == Encoded(n);
    ConstructedString(tag, n, []);
    RunResumes([tag], c, y);
  }

  lemma RunOnBuffer(tag: Tag, n: Node, b: Bytes)
    requires tag != 0 && !n.Primitive? && n.tag != 0 && WellFormed(n) && Segments(n.children, tag)
    requires |Flat(n)| < MAX_STRING && Comparable(Encoded(n), b)
    ensures var r := Run([tag], Config([], [], b, false));
            if Encoded(n) <= b then r.code == OK && |r.c.b| == |b| - |Encoded(n)| && r.c.out == Flat(n)
            else r.code == WMORE
  {
    hide Run, Encoded, WellFormed, Segments, Flat;
    if Encoded(n) <= b {
      var x := b[|Encoded(n)|..];
      assert b == Encoded(n) + x;
      ConstructedString(tag, n, x);
    } else {
      PrefixWantsMore(tag, n, b);
    }
  }

  /** Once the header is there the decoder goes on as if it had been in the machine from the start. */
  lemma EntersMachine(tag: Tag, n: Node, b: Bytes, mode: int) returns (ctx: Ctx)
    requires mode in {-1, 0} && (mode == 0 ==> n.tag == tag)
    requires WellFormed(n) && !n.Primitive? && Comparable(Encoded(n), b) && HeaderSize(n) <= |b|
    ensures InMachine(ctx) && ctx.stack == [] && ctx.buf == [] && ctx.phase == 1
    ensures Decode([tag], [tag], FRESH, b, mode) == Decode([tag], [tag], ctx, b, mode)
  {
    hide CheckTags, DecodeMachine, Encoded, WellFormed, HeaderSize, Comparable;
    OuterChecked(tag, n, b, mode);
    var k := CheckTags([tag], true, 0, b, mode, -1);
    ctx := FRESH.(step := k.step, phase := 1, left := k.length);
  }

  lemma StaysFresh(tag: Tag, n: Node, b: Bytes, mode: int)
    requires mode in {-1, 0} && (mode == 0 ==> n.tag == tag)
    requires WellFormed(n) && !n.Primitive? && Comparable(Encoded(n), b) && HeaderSize(n) > |b|
    ensures Decode([tag], [tag], FRESH, b, mode) == Decoded(WMORE, 0, FRESH)
  {
    hide CheckTags, DecodeMachine, Encoded, WellFormed, HeaderSize, Comparable;
    OuterChecked(tag, n, b, mode);
  }

  lemma FeedSame(tags: seq<Tag>, allTags: seq<Tag>, x: Ctx, y: Ctx, kept: Bytes, pieces: seq<Bytes>, mode: int)
    requires pieces != []
    requires Decode(tags, allTags, x, kept + pieces[0], mode) == Decode(tags, allTags, y, kept + pieces[0], mode)
    ensures FeedString(tags, allTags, x, kept, pieces, mode) == FeedString(tags, allTags, y, kept, pieces, mode)
  {
    hide Decode;
  }

  lemma FeedWaits(tags: seq<Tag>, allTags: seq<Tag>, x: Ctx, kept: Bytes, pieces: seq<Bytes>, mode: int)
    requires pieces != [] && Decode(tags, allTags, x, kept + pieces[0], mode) == Decoded(WMORE, 0, x)
    ensures FeedString(tags, allTags, x, kept, pieces, mode)
         == FeedString(tags, allTags, x, kept + pieces[0], pieces[1..], mode)
  {
    hide Decode;
    var b := kept + pieces[0];
    assert b[0..] == b;
  }

  predicate Fed(d: Decoded, n: Node, all: Bytes)
    requires WellFormed(n)
  {
    if Encoded(n) <= all then d.code == OK && d.consumed == |Encoded(n)| && d.ctx.buf == Flat(n) else d.code == WMORE
  }

  lemma {:induction false} FreshFeeds(tag: Tag, n: Node, kept: Bytes, pieces: seq<Bytes>, mode: int)
    requires mode in {-1, 0} && (mode == 0 ==> n.tag == tag)
    requires tag != 0 && !n.Primitive? && n.tag != 0 && WellFormed(n) && Segments(n.children, tag)
    requires |Flat(n)| < MAX_STRING && Comparable(Encoded(n), kept + Concat(pieces)) && HeaderSize(n) > |kept|
    ensures Fed(FeedString([tag], [tag], FRESH, kept, pieces, mode), n, kept + Concat(pieces))
    decreases |pieces|
  {
    hide *;
    DeclaredIs(n);
    if pieces == [] {
      ConcatNone(pieces);
      assert kept + [] == kept;
      FedNothing([tag], FRESH, n, kept, pieces, mode);
    } else {
      ConcatFirst(pieces);
      var b, rest := kept + pieces[0], Concat(pieces[1..]);
      assert kept + Concat(pieces) == b + rest;
      ComparablePrefix(Encoded(n), b, rest);
      if HeaderSize(n) > |b| {
        StaysFresh(tag, n, b, mode);
        FeedWaits([tag], [tag], FRESH, kept, pieces, mode);
        FreshFeeds(tag, n, b, pieces[1..], mode);
      } else {
        var ctx := EntersMachine(tag, n, b, mode);
        FeedSame([tag], [tag], FRESH, ctx, kept, pieces, mode);
        var all := kept + Concat(pieces);
        RunOnBuffer(tag, n, all);
        StartConfig(ctx, all);
        MachineFeeds([tag], [tag], ctx, kept, pieces, mode);
        FedMachine(FeedString([tag], [tag], ctx, kept, pieces, mode), n, all);
      }
    }
  }

  lemma StartConfig(ctx: Ctx, b: Bytes)
    requires ctx.stack == [] && ctx.buf == [] && ctx.phase == 1
    ensures Machine(ctx, b) == Config([], [], b, false) && Sane(Machine(ctx, b))
  {}

  lemma ComparablePrefix(a: Bytes, b: Bytes, x: Bytes)
    requires Comparable(a, b + x)
    ensures Comparable(a, b)
  {}

  lemma FedNothing(tags: seq<Tag>, ctx: Ctx, n: Node, kept: Bytes, pieces: seq<Bytes>, mode: int)
    requires WellFormed(n) && pieces == [] && |kept| < |Encoded(n)|
    ensures Fed(FeedString(tags, tags, ctx, kept, pieces, mode), n, kept)
  {}

  lemma FedMachine(d: Decoded, n: Node, all: Bytes)
    requires WellFormed(n)
    requires Encoded(n) <= all ==> d.code == OK && d.consumed == |Encoded(n)| && d.ctx.buf == Flat(n)
    requires !(Encoded(n) <= all) ==> d.code == WMORE
    ensures Fed(d, n, all)
  {}

  /** A constructed string, plain or IMPLICITly retagged, from a fresh decoder in any pieces: more is
      wanted until it is complete, then exactly it has been consumed and the segments are there. */
  lemma ConstructedPieces(tag: Tag, n: Node, pieces: seq<Bytes>, mode: int)
    requires mode in {-1, 0} && (mode == 0 ==> n.tag == tag)
    requires tag != 0 && !n.Primitive? && n.tag != 0 && WellFormed(n) && Segments(n.children, tag)
    requires |Flat(n)| < MAX_STRING && Comparable(Encoded(n), Concat(pieces))
    ensures var d := FeedString([tag], [tag], FRESH, [], pieces, mode);
            if Encoded(n) <= Concat(pieces) then d.code == OK && d.consumed == |Encoded(n)| && d.ctx.buf == Flat(n)
            else d.code == WMORE
  {
    hide Run, FeedString, Encoded, WellFormed, Segments, Flat, Comparable, Concat;
    assert [] + Concat(pieces) == Concat(pieces);
    FreshFeeds(tag, n, [], pieces, mode);
  }

  // ----- an EXPLICIT tag around a constructed string

  /** The tag around the string, with a length of the same kind: `ber_check_tags` takes no other. */
  function Nested(out: Tag, inner: Node): (n: Node) {
    if inner.Indefinite? then Indefinite(out, Cons(inner, Nil)) else Definite(out, Cons(inner, Nil))
  }

  predicate NestedFits(tag: Tag, out: Tag, inner: Node) {
    && tag != 0 && out != 0 && !inner.Primitive? && WellFormed(inner) && Segment(inner, tag)
    && |Encoded(inner)| <= MAX_LENGTH && |Flat(inner)| < MAX_STRING
  }

  lemma NestedParts(tag: Tag, out: Tag, inner: Node, x: Bytes)
    requires NestedFits(tag, out, inner)
    ensures var n := Nested(out, inner);
            && WellFormed(n) && !n.Primitive? && n.tag == out && Segments(n.children, tag) && Flat(n) == Flat(inner)
            && DeclaredLength(n) == (if inner.Indefinite? then INDEFINITE else |Encoded(inner)|)
            && |Encoded(n)| == HeaderSize(n) + |Encoded(inner)| + (if inner.Indefinite? then 2 else 0)
            && (Encoded(n) + x)[HeaderSize(n)..] == Encoded(inner) + ((if inner.Indefinite? then [0, 0] else []) + x)
  {
    hide Encoded, Identifier, LengthAndContents, HeaderSize, LengthOctets;
    var n := Nested(out, inner);
    NestedSound(tag, out, inner);
    NodeParts(n);
    hide WellFormed, DeclaredLength, Contents, Body, Flat;
    var t, l, d := Identifier(n.tag, true), LengthOctets(n), Body(n);
    HeaderIs(n);
    Assoc(t, l, d, x);
    assert (t + (l + d) + x)[|t| + |l|..] == d + x;
    NestedBody(out, inner, x);
  }

  lemma HeaderIs(n: Node)
    requires WellFormed(n) && !n.Primitive?
    ensures HeaderSize(n) == |Identifier(n.tag, true)| + |LengthOctets(n)|
  {}

  lemma NestedSound(tag: Tag, out: Tag, inner: Node)
    requires NestedFits(tag, out, inner)
    ensures var n := Nested(out, inner);
            && WellFormed(n) && !n.Primitive? && n.tag == out && Segments(n.children, tag) && Flat(n) == Flat(inner)
            && DeclaredLength(n) == (if inner.Indefinite? then INDEFINITE else |Encoded(inner)|)
  {
    hide Encoded;
    OneNode(inner);
  }

  lemma OneNode(inner: Node)
    requires WellFormed(inner) && !inner.Primitive?
    ensures AllWellFormed(Cons(inner, Nil)) && Contents(Cons(inner, Nil)) == Encoded(inner)
    ensures FlatAll(Cons(inner, Nil)) == Flat(inner)
  {
    hide Encoded;
  }

  lemma NestedBody(out: Tag, inner: Node, x: Bytes)
    requires WellFormed(inner) && !inner.Primitive? && WellFormed(Nested(out, inner))
    ensures Body(Nested(out, inner)) + x == Encoded(inner) + ((if inner.Indefinite? then [0, 0] else []) + x)
    ensures |Body(Nested(out, inner))| == |Encoded(inner)| + if inner.Indefinite? then 2 else 0
  {
    hide Encoded;
    OneNode(inner);
    var e: Bytes := if inner.Indefinite? then [0, 0] else [];
    assert Encoded(inner) + e + x == Encoded(inner) + (e + x);
  }

  /** One TL of the two against the tag list. */
  lemma TLVerdict(tag: Tag, n: Node, b: Bytes, tagno: int, step: nat, limit: int, eocs: nat)
    requires WellFormed(n) && !n.Primitive? && Comparable(Encoded(n), b)
    requires -1 <= tagno <= 0 && (tagno == -1 ==> step == 0) && (step == 0 || n.tag == tag)
    requires n.Indefinite? ==> limit == NONE
    requires !n.Indefinite? ==> eocs == 0 && (limit == NONE || limit == |Encoded(n)|)
    ensures CheckTL([tag], 1, -1, b, tagno, step, limit, eocs)
         == if HeaderSize(n) <= |b| then Accept(HeaderSize(n), DeclaredLength(n), true) else Want
  {
    hide Identifier, LengthOctets, Encoded, FetchTag, FetchLength, WellFormed, Constructed, Comparable;
    DeclaredIs(n);
    KindOf(n);
    if HeaderSize(n) <= |b| {
      HeaderThere(n, b);
    } else {
      HeaderMissing(n, b);
    }
    hide DeclaredLength, HeaderSize;
  }

  lemma KindOf(n: Node)
    requires WellFormed(n) && !n.Primitive?
    ensures n.Indefinite? <==> DeclaredLength(n) == INDEFINITE
    ensures !n.Indefinite? ==> DeclaredLength(n) + HeaderSize(n) == |Encoded(n)|
  {
    NodeParts(n);
    BodySize(n);
  }

  /** The step of the loop behind the outer TL. */
  lemma NestedLoop(tag: Tag, out: Tag, inner: Node, b: Bytes)
    requires NestedFits(tag, out, inner)
    requires WellFormed(Nested(out, inner)) && HeaderSize(Nested(out, inner)) <= |b| && Comparable(Encoded(Nested(out, inner)), b)
    ensures var hs := HeaderSize(Nested(out, inner));
            var rest := b[hs..];
            var w, limit, eocs := if inner.Indefinite? then rest else Cut(rest, |Encoded(inner)|),
                                  if inner.Indefinite? then NONE else |Encoded(inner)|,
                                  if inner.Indefinite? then 1 else 0;
            var len := if inner.Indefinite? then INDEFINITE else |Encoded(inner)|;
            && Comparable(Encoded(inner), w) && (HeaderSize(inner) <= |w| <==> HeaderSize(inner) <= |rest|)
            && CheckTags([tag], true, 0, b, 1, -1) == CheckLoop([tag], 1, -1, true, w, 0, 1, hs, limit, eocs, len, true)
  {
    hide Encoded, HeaderSize, WellFormed, CheckTL, Flat, Segment, Segments, DeclaredLength;
    var n := Nested(out, inner);
    NestedParts(tag, out, inner, []);
    DeclaredIs(inner);
    TLVerdict(tag, n, b, -1, 0, NONE, 0);
    assert Encoded(n) + [] == Encoded(n);
    NestedRest(Encoded(n), HeaderSize(n), Encoded(inner), b, inner.Indefinite?);
  }

  lemma NestedRest(outer: Bytes, hs: nat, inner: Bytes, b: Bytes, indefinite: bool)
    requires Comparable(outer, b) && hs <= |b| && hs <= |outer| && inner <= outer[hs..]
    ensures Comparable(inner, b[hs..]) && Comparable(inner, Cut(b[hs..], |inner|))
  {}

  /** In one call the tag and the string are consumed, end-of-contents octets included. */
  lemma ExplicitWhole(tag: Tag, out: Tag, inner: Node, x: Bytes)
    requires NestedFits(tag, out, inner)
    ensures WellFormed(Nested(out, inner))
    ensures var d := Decode([tag], [tag], FRESH, Encoded(Nested(out, inner)) + x, 1);
            d.code == OK && d.consumed == |Encoded(Nested(out, inner))| && d.ctx.buf == Flat(inner)
  {
    hide Encoded, HeaderSize, WellFormed, CheckLoop, Flat, Segments, Run, CheckTags;
    NestedParts(tag, out, inner, x);
    var n := Nested(out, inner);
    var b := Encoded(n) + x;
    NestedLoop(tag, out, inner, b);
    DeclaredIs(inner);
    LoopAccepts(tag, inner, b[HeaderSize(n)..], HeaderSize(n));
    ConstructedString(tag, n, x);
  }

  lemma LoopAccepts(tag: Tag, inner: Node, rest: Bytes, used: nat)
    requires WellFormed(inner) && !inner.Primitive? && inner.tag == tag
    requires HeaderSize(inner) <= |rest|
    ensures var w, limit, eocs := if inner.Indefinite? then rest else Cut(rest, |Encoded(inner)|),
                                  if inner.Indefinite? then NONE else |Encoded(inner)|,
                                  if inner.Indefinite? then 1 else 0;
            var len := if inner.Indefinite? then INDEFINITE else |Encoded(inner)|;
            Comparable(Encoded(inner), w) ==>
              var r := CheckLoop([tag], 1, -1, true, w, 0, 1, used, limit, eocs, len, true);
              r.code == OK && r.form
  {
    hide Encoded, HeaderSize, WellFormed, CheckTL, DeclaredLength;
    DeclaredIs(inner);
    KindOf(inner);
    var w, limit, eocs := if inner.Indefinite? then rest else Cut(rest, |Encoded(inner)|),
                          if inner.Indefinite? then NONE else |Encoded(inner)|,
                          if inner.Indefinite? then 1 else 0;
    if Comparable(Encoded(inner), w) {
      TLVerdict(tag, inner, w, 0, 1, limit, eocs);
    }
  }

  lemma LoopWaits(tag: Tag, inner: Node, w: Bytes, used: nat, limit: int, eocs: nat, len: int)
    requires WellFormed(inner) && !inner.Primitive? && inner.tag == tag && Comparable(Encoded(inner), w)
    requires HeaderSize(inner) > |w|
    requires inner.Indefinite? ==> limit == NONE
    requires !inner.Indefinite? ==> eocs == 0 && limit == |Encoded(inner)|
    ensures CheckLoop([tag], 1, -1, true, w, 0, 1, used, limit, eocs, len, true) == Stop(WMORE, true, used, 1)
  {
    hide Encoded, HeaderSize, WellFormed, CheckTL, DeclaredLength;
    TLVerdict(tag, inner, w, 0, 1, limit, eocs);
  }

  /** Split between the two headers, the outer TL is consumed by the first call and the machine of the
      second begins at the inner one: the string is the same, but the end-of-contents octets of the
      outer TL are left over. So the consumption is that of one call exactly when the lengths are
      definite. */
  lemma ExplicitSplit(tag: Tag, out: Tag, inner: Node, j: nat, x: Bytes)
    requires NestedFits(tag, out, inner) && j < HeaderSize(inner)
    ensures WellFormed(Nested(out, inner))
    ensures var n := Nested(out, inner);
            var b, cut := Encoded(n) + x, HeaderSize(n) + j;
            && cut <= |Encoded(n)|
            && var d := Decode([tag], [tag], FRESH, b[..cut], 1);
            && d.code == WMORE && d.consumed == HeaderSize(n)
            && var e := Decode([tag], [tag], d.ctx, b[HeaderSize(n)..], 1);
            && e.code == OK && e.ctx.buf == Flat(inner)
            && d.consumed + e.consumed == |Encoded(n)| - (if inner.Indefinite? then 2 else 0)
            && (d.consumed + e.consumed == |Encoded(n)| <==> !inner.Indefinite?)
  {
    NestedParts(tag, out, inner, x);
    var n := Nested(out, inner);
    var hs := HeaderSize(n);
    DeclaredIs(inner);
    hide Encoded, HeaderSize, WellFormed, Flat, Segments, Run, CheckTags, Segment, Comparable, CheckLoop;
    FirstHalf(tag, out, inner, j, x);
    SecondHalf(tag, inner, (if inner.Indefinite? then [0, 0] else []) + x);
  }

  lemma FirstHalf(tag: Tag, out: Tag, inner: Node, j: nat, x: Bytes)
    requires NestedFits(tag, out, inner) && j < HeaderSize(inner) && WellFormed(Nested(out, inner))
    ensures HeaderSize(Nested(out, inner)) + j <= |Encoded(Nested(out, inner))|
    ensures var n := Nested(out, inner);
            Decode([tag], [tag], FRESH, (Encoded(n) + x)[..HeaderSize(n) + j], 1)
            == Decoded(WMORE, HeaderSize(n), FRESH.(step := 1))
  {
    hide Encoded, HeaderSize, WellFormed, CheckLoop, Flat, Segments, DecodeMachine, CheckTags;
    NestedParts(tag, out, inner, x);
    DeclaredIs(inner);
    var n := Nested(out, inner);
    var b := (Encoded(n) + x)[..HeaderSize(n) + j];
    assert b == Encoded(n)[..HeaderSize(n) + j];
    NestedLoop(tag, out, inner, b);
    var rest := b[HeaderSize(n)..];
    var w, limit, eocs := if inner.Indefinite? then rest else Cut(rest, |Encoded(inner)|),
                          if inner.Indefinite? then NONE else |Encoded(inner)|,
                          if inner.Indefinite? then 1 else 0;
    LoopWaits(tag, inner, w, HeaderSize(n), limit, eocs, if inner.Indefinite? then INDEFINITE else |Encoded(inner)|);
  }

  lemma InnerChecked(tag: Tag, inner: Node, b: Bytes)
    requires !inner.Primitive? && WellFormed(inner) && inner.tag == tag
    requires Comparable(Encoded(inner), b) && HeaderSize(inner) <= |b|
    ensures var r := CheckTags([tag], true, 1, b, 1, -1); r.code == OK && r.form
  {
    hide Encoded, HeaderSize, WellFormed, CheckTL, Comparable, DeclaredLength, Cut;
    KindOf(inner);
    DeclaredIs(inner);
    TLVerdict(tag, inner, b, 0, 1, NONE, 0);
    var len, hs := DeclaredLength(inner), HeaderSize(inner);
    LoopEnds(tag, 1, b[hs..], 2, hs, NONE, 1, len);
    LoopEnds(tag, 1, Cut(b[hs..], if len < 0 then 0 else len), 2, hs, len, 0, len);
  }

  lemma SecondHalf(tag: Tag, inner: Node, x: Bytes)
    requires tag != 0 && !inner.Primitive? && WellFormed(inner) && Segment(inner, tag) && |Flat(inner)| < MAX_STRING
    ensures var d := Decode([tag], [tag], FRESH.(step := 1), Encoded(inner) + x, 1);
            d.code == OK && d.consumed == |Encoded(inner)| && d.ctx.buf == Flat(inner)
  {
    hide Encoded, HeaderSize, WellFormed, Flat, Segments, Run, CheckTags, Comparable, DeclaredLength;
    var b := Encoded(inner) + x;
    ExtendedCompares(Encoded(inner), x);
    DeclaredIs(inner);
    InnerChecked(tag, inner, b);
    ConstructedString(tag, inner, x);
  }

  lemma ExtendedCompares(a: Bytes, x: Bytes)
    ensures Comparable(a, a + x)
  {}

  /** Done is phase 4 and nothing else; a call that wants more leaves an earlier phase. */
  lemma PhaseOf(tags: seq<Tag>, allTags: seq<Tag>, ctx: Ctx, b: Bytes, mode: int)
    requires ctx.phase <= 3
    ensures var r := Decode(tags, allTags, ctx, b, mode);
            (r.code == OK ==> r.ctx.phase == 4) && (r.code == WMORE ==> r.ctx.phase <= 3)
  {
    hide CheckTags, Run, Sane;
  }

  /** However it is fed, the decoder never holds a string as long as the limit. */
  lemma DecodeBounded(tags: seq<Tag>, allTags: seq<Tag>, ctx: Ctx, b: Bytes, mode: int)
    requires |ctx.buf| < MAX_STRING
    ensures var r := Decode(tags, allTags, ctx, b, mode); r.code != FAIL ==> |r.ctx.buf| < MAX_STRING
  {
    hide CheckTags, Run, Sane;
    var c := Config(ctx.stack, ctx.buf, b, ctx.phase == 2);
    if Sane(c) {
      RunBounded(allTags, c);
    }
    var d := Config(ctx.stack, ctx.buf, b, false);
    if Sane(d) {
      RunBounded(allTags, d);
    }
  }

  lemma OkIsDone(tags: seq<Tag>, allTags: seq<Tag>, b: Bytes, mode: int)
    ensures Decode(tags, allTags, FRESH, b, mode).code == OK ==> Decode(tags, allTags, FRESH, b, mode).ctx.phase == 4
  {
    hide CheckTags, Run;
  }

  /** `OCTET_STRING_decode_ber` */
  method StringDecodeBer(tags: seq<Tag>, allTags: seq<Tag>, ctx0: Ctx, b: Bytes, mode: int) returns (r: Decoded)
    requires mode in {-1, 0, 1}
    ensures r == Decode(tags, allTags, ctx0, b, mode)
  {
    hide CheckTags, Run;
    var ctx, used, p := ctx0, 0, b;
    if ctx.phase == 0 {
      var k := BerCheckTags(tags, true, ctx.step, b, mode, -1);
      ctx := ctx.(step := k.step);
      if k.code != OK {
        return Decoded(k.code, k.consumed, ctx);
      }
      if k.form {
        ctx := ctx.(phase := 1, left := k.length);
      } else {
        ctx, used, p := ctx.(phase := 3, left := k.length), k.consumed, b[k.consumed..];
      }
    }
    if ctx.phase == 1 || ctx.phase == 2 {
      var c := Config(ctx.stack, ctx.buf, p, ctx.phase == 2);
      if !Sane(c) {
        return Decoded(FAIL, 0, ctx);
      }
      var m := RunMachine(allTags, c);
      var phase := if m.code == OK then 4 else if m.c.copying then 2 else 1;
      return Decoded(m.code, |p| - |m.c.b|, ctx.(phase := phase, buf := m.c.out, stack := m.c.stack));
    } else if ctx.phase == 3 {
      return DecodePrimitive(ctx, p, used);
    }
    return Decoded(OK, 0, ctx);
  }
}
