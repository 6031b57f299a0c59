/** Skipping one value of unknown type: `ber_skip_length` of src/rspro/ber_tlv_length.c.
    The stack-depth guard of the source is not modelled. */
module SkipLength {
  import opened Tlv

  /** `ber_skip_length`: `b` starts at the length octets; `used` counts length and contents. */
  function Skip(constructed: bool, b: Bytes): (r: Fetch)
    ensures r.Got? ==> 0 < r.used <= |b|
    decreases |b|, 0
  {
    match FetchLength(constructed, b)
    case More => More
    case Bad => Bad
    case Got(ll, vlen) =>
      if vlen != INDEFINITE then
        (if ll + vlen > |b| then More else Got(ll + vlen, 0))
      else SkipUntilEoc(b[ll..], ll)
  }

  /** The loop over the elements of an indefinite length, up to and including 00 00. */
  function SkipUntilEoc(b: Bytes, skipped: nat): (r: Fetch)
    ensures r.Got? ==> skipped < r.used <= skipped + |b|
    decreases |b|, 1
  {
    match FetchTag(b)
    case More => More
    case Bad => Bad
    case Got(tl, _) =>
      match Skip(Constructed(b[0]), b[tl..])
      case More => More
      case Bad => Bad
      case Got(ll, _) =>
        if b[0] == 0 && b[1] == 0 then Got(skipped + tl + ll, 0)
        else SkipUntilEoc(b[tl + ll..], skipped + tl + ll)
  }

  /** The recursion and the loop of the source. */
  method BerSkipLength(constructed: bool, b: Bytes) returns (r: Fetch)
    ensures r == Skip(constructed, b)
    decreases |b|
  {
    hide FetchTag, FetchLength, Constructed, SkipUntilEoc;
    var l := BerFetchLength(constructed, b);
    if !l.Got? {
      return l;
    }
    if l.value >= 0 {
      if l.used + l.value > |b| {
        return More;
      }
      return Got(l.used + l.value, 0);
    }
    var skip := l.used;
    while true
      invariant 0 < skip <= |b|
      invariant Skip(constructed, b) == SkipUntilEoc(b[skip..], skip)
      decreases |b| - skip
    {
      var p := b[skip..];
      SkipUnfold(p, skip);
      var t := BerFetchTag(p);
      if !t.Got? {
        return t;
      }
      var v := BerSkipLength(Constructed(p[0]), p[t.used..]);
      if !v.Got? {
        return v;
      }
      assert p[t.used + v.used..] == b[skip + t.used + v.used..];
      skip := skip + t.used + v.used;
      if p[0] == 0 && p[1] == 0 {
        return Got(skip, 0);
      }
    }
  }

  // ----- well-formed values, with definite and indefinite lengths nested in any way

  datatype Node =
    | Primitive(tag: Tag, contents: Bytes)
    | Definite(tag: Tag, children: Nodes)
    | Indefinite(tag: Tag, children: Nodes)

  datatype Nodes = Nil | Cons(head: Node, tail: Nodes)

  predicate IsConstructed(n: Node) {
    !n.Primitive?
  }

  /** Section 8.1.3 of X.690: the length octets and what follows them. */
  function LengthAndContents(n: Node): (b: Bytes)
    requires WellFormed(n)
    ensures |b| >= 1
    decreases n, 1
  {
    match n
    case Primitive(_, c) => SerializeLength(|c|) + c
    case Definite(_, kids) => SerializeLength(|Contents(kids)|) + Contents(kids)
    case Indefinite(_, kids) => [0x80] + (Contents(kids) + [0, 0])
  }

  function Encoded(n: Node): (b: Bytes)
    requires WellFormed(n)
    ensures |b| >= 2
    decreases n, 2
  {
    Identifier(n.tag, IsConstructed(n)) + LengthAndContents(n)
  }

  function Contents(ns: Nodes): (b: Bytes)
    requires AllWellFormed(ns)
    decreases ns, 3
  {
    match ns
    case Nil => []
    case Cons(h, t) => Encoded(h) + Contents(t)
  }

  /** Lengths fit, and no element inside a constructed value is the end-of-contents 00 00. */
  predicate WellFormed(n: Node)
    decreases n, 0
  {
    match n
    case Primitive(_, c) => |c| <= MAX_LENGTH
    case Definite(_, kids) => AllWellFormed(kids) && |Contents(kids)| <= MAX_LENGTH
    case Indefinite(_, kids) => AllWellFormed(kids)
  }

  predicate AllWellFormed(ns: Nodes)
    decreases ns, 0
  {
    match ns
    case Nil => true
    case Cons(h, t) => WellFormed(h) && h != Primitive(0, []) && AllWellFormed(t)
  }

  lemma EncodedStart(n: Node)
    requires WellFormed(n)
    requires n != Primitive(0, [])
    ensures !(Encoded(n)[0] == 0 && Encoded(n)[1] == 0)
  {}

  /** Whatever follows it, a well-formed value is skipped exactly. */
  lemma {:induction false} SkipExact(n: Node, x: Bytes)
    requires WellFormed(n)
    ensures Skip(IsConstructed(n), LengthAndContents(n) + x) == Got(|LengthAndContents(n)|, 0)
    decreases n, 1
  {
    hide FetchLength, SerializeLength, SkipUntilEoc, Contents, FetchTag;
    match n
    case Primitive(_, c) => SkipDefinite(false, c, x);
    case Definite(_, kids) => SkipDefinite(true, Contents(kids), x);
    case Indefinite(_, kids) =>
      SkipContents(kids, x, 1);
      SkipIndefinite(Contents(kids), x);
  }

  lemma SkipIndefinite(c: Bytes, x: Bytes)
    ensures Skip(true, [0x80] + (c + [0, 0]) + x) == SkipUntilEoc(c + ([0, 0] + x), 1)
  {
    hide SkipUntilEoc;
    var eoc: Bytes := [0, 0];
    assert ([0x80] + (c + eoc) + x)[1..] == c + (eoc + x);
  }

  lemma SkipDefinite(constructed: bool, c: Bytes, x: Bytes)
    requires |c| <= MAX_LENGTH
    ensures Skip(constructed, SerializeLength(|c|) + c + x) == Got(|SerializeLength(|c|) + c|, 0)
  {
    hide FetchLength, SerializeLength, SkipUntilEoc;
    FetchLengthRoundTrip(constructed, |c|, c + x);
    assert SerializeLength(|c|) + c + x == SerializeLength(|c|) + (c + x);
  }

  lemma {:induction false} SkipContents(ns: Nodes, x: Bytes, skipped: nat)
    requires AllWellFormed(ns)
    ensures SkipUntilEoc(Contents(ns) + ([0, 0] + x), skipped) == Got(skipped + |Contents(ns)| + 2, 0)
    decreases ns
  {
    hide FetchTag, FetchLength, Skip, SkipUntilEoc, Encoded, Identifier, WellFormed;
    var eoc: Bytes := [0, 0];
    var y := eoc + x;
    match ns
    case Nil =>
      SkipEoc(x, skipped);
      assert Contents(ns) + y == y;
    case Cons(h, t) =>
      SkipOne(h, Contents(t) + y, skipped);
      assert Contents(ns) + y == Encoded(h) + (Contents(t) + y);
      SkipContents(t, x, skipped + |Encoded(h)|);
  }

  lemma SkipEoc(x: Bytes, skipped: nat)
    ensures SkipUntilEoc([0, 0] + x, skipped) == Got(skipped + 2, 0)
  {}

  lemma {:induction false} SkipOne(n: Node, y: Bytes, skipped: nat)
    requires WellFormed(n) && n != Primitive(0, [])
    ensures SkipUntilEoc(Encoded(n) + y, skipped) == SkipUntilEoc(y, skipped + |Encoded(n)|)
    decreases n, 2
  {
    hide *;
    var t, v := Identifier(n.tag, IsConstructed(n)), LengthAndContents(n);
    EncodedParts(n);
    Split3(t, v, y);
    FetchTagRoundTrip(n.tag, IsConstructed(n), v + y);
    SkipExact(n, y);
    EncodedStart(n);
    SkipAdvance(t + v + y, |t|, |v|, n.tag, skipped);
  }

  lemma EncodedParts(n: Node)
    requires WellFormed(n)
    ensures Encoded(n) == Identifier(n.tag, IsConstructed(n)) + LengthAndContents(n)
  {}

  lemma Split3(t: Bytes, v: Bytes, y: Bytes)
    ensures t + v + y == t + (v + y)
    ensures (t + v + y)[|t|..] == v + y
    ensures (t + v + y)[|t| + |v|..] == y
  {}

  lemma SkipAdvance(b: Bytes, tl: nat, ll: nat, tag: int, skipped: nat)
    requires FetchTag(b) == Got(tl, tag)
    requires Skip(Constructed(b[0]), b[tl..]).Got? && Skip(Constructed(b[0]), b[tl..]).used == ll
    requires |b| >= 2 && !(b[0] == 0 && b[1] == 0)
    ensures SkipUntilEoc(b, skipped) == SkipUntilEoc(b[tl + ll..], skipped + tl + ll)
  {
    hide FetchTag, FetchLength, Skip;
  }

  // ----- a verdict on a prefix is final, so a proper prefix of a value asks for more

  lemma {:induction false} SkipStable(constructed: bool, b: Bytes, x: Bytes)
    requires Skip(constructed, b) != More
    ensures Skip(constructed, b + x) == Skip(constructed, b)
    decreases |b|, 0
  {
    hide FetchLength, SkipUntilEoc;
    FetchLengthStable(constructed, b, x);
    var l := FetchLength(constructed, b);
    if l.Got? && l.value == INDEFINITE {
      SkipUntilEocStable(b[l.used..], x, l.used);
      assert (b + x)[l.used..] == b[l.used..] + x;
    }
  }

  lemma {:induction false} SkipUntilEocStable(b: Bytes, x: Bytes, skipped: nat)
    requires SkipUntilEoc(b, skipped) != More
    ensures SkipUntilEoc(b + x, skipped) == SkipUntilEoc(b, skipped)
    decreases |b|, 1
  {
    hide *;
    SkipUnfold(b, skipped);
    FetchTagStable(b, x);
    SkipUnfold(b + x, skipped);
    var t := FetchTag(b);
    if t.Got? {
      var p := b[t.used..];
      SkipStable(Constructed(b[0]), p, x);
      assert (b + x)[t.used..] == p + x;
      var v := Skip(Constructed(b[0]), p);
      if v.Got? && !(b[0] == 0 && b[1] == 0) {
        var k := t.used + v.used;
        SkipUntilEocStable(b[k..], x, skipped + k);
        assert (b + x)[k..] == b[k..] + x;
      }
    }
  }

  lemma SkipUnfold(b: Bytes, skipped: nat)
    ensures var t := FetchTag(b);
            if !t.Got? then SkipUntilEoc(b, skipped) == t
            else
              var v := Skip(Constructed(b[0]), b[t.used..]);
              if !v.Got? then SkipUntilEoc(b, skipped) == v
              else
                var k := t.used + v.used;
                SkipUntilEoc(b, skipped) ==
                  if b[0] == 0 && b[1] == 0 then Got(skipped + k, 0) else SkipUntilEoc(b[k..], skipped + k)
  {}

  lemma SkipPrefixWantsMore(n: Node, p: Bytes)
    requires WellFormed(n)
    requires p < LengthAndContents(n)
    ensures Skip(IsConstructed(n), p) == More
  {
    var v := LengthAndContents(n);
    hide Skip, LengthAndContents;
    assert p + v[|p|..] == v && v + [] == v;
    SkipExact(n, []);
    if Skip(IsConstructed(n), p) != More {
      SkipStable(IsConstructed(n), p, v[|p|..]);
    }
  }
}
