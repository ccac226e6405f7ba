/** The canonical byte stream of a joint trajectory, the bytes that are hashed into its content identity,
    and a decoder that shows what the stream determines.

    Text is a sequence of Unicode code points, surrogates included, as a Python string is; a double is its
    64-bit pattern.  Hashing itself is not modelled: the stream is what the digest is fed. */
module TrajectoryDigest {
  import opened Options

  // ----- values

  type byte = b: int | 0 <= b < 0x100

  type CodePoint = c: int | 0 <= c <= 0x10FFFF

  type Text = seq<CodePoint>

  type Bits64 = n: int | 0 <= n < 0x1_0000_0000_0000_0000

  /** An element of a point field: refused as a boolean or by the conversion to a double, or a double. */
  datatype Value = Refused | Number(bits: Bits64)

  datatype Stamp = Stamp(sec: int, nanosec: int)

  datatype Point = Point(positions: seq<Value>, velocities: seq<Value>, accelerations: seq<Value>, effort: seq<Value>,
                         timeFromStart: Stamp)

  datatype Trajectory = Trajectory(frame: Text, stamp: Stamp, names: seq<Text>, points: seq<Point>)

  const TWO_32: int := 0x1_0000_0000
  const TWO_63: int := 0x8000_0000_0000_0000
  const TWO_64: int := 0x1_0000_0000_0000_0000

  function Ascii(s: string): seq<byte>
  {
    if s == "" then [] else [s[0] as int % 0x80] + Ascii(s[1..])
  }

  const SCHEMA_PREFIX: seq<byte> := Ascii("z_manip.joint_trajectory.sha256.v1") + [0]

  // ----- which trajectories are valid

  /** The code points Python counts as white space. */
  predicate IsSpace(c: CodePoint)
  {
    || 0x09 <= c <= 0x0D || 0x1C <= c <= 0x20 || c == 0x85 || c == 0xA0 || c == 0x1680 || 0x2000 <= c <= 0x200A
    || c == 0x2028 || c == 0x2029 || c == 0x202F || c == 0x205F || c == 0x3000
  }

  predicate IsSurrogate(c: CodePoint) { 0xD800 <= c <= 0xDFFF }

  predicate Scalars(t: Text) { forall i :: 0 <= i < |t| ==> !IsSurrogate(t[i]) }

  predicate ValidText(t: Text)
  {
    t != [] && !IsSpace(t[0]) && !IsSpace(t[|t| - 1]) && Scalars(t) && |Utf8(t)| < TWO_32
  }

  predicate ValidStamp(s: Stamp) { 0 <= s.sec < TWO_63 && 0 <= s.nanosec <= 999_999_999 }

  /** Finite: the exponent field is not all ones. */
  predicate Finite(v: Value) { v.Number? && v.bits / 0x10_0000_0000_0000 % 0x800 != 0x7FF }

  predicate ValidField(vs: seq<Value>, joints: nat, required: bool)
  {
    (|vs| == joints || (!required && |vs| == 0)) && forall i :: 0 <= i < |vs| ==> Finite(vs[i])
  }

  function Field(p: Point, k: nat): seq<Value>
    requires k < 4
  {
    match k case 0 => p.positions case 1 => p.velocities case 2 => p.accelerations case _ => p.effort
  }

  predicate ValidPoint(p: Point, joints: nat)
  {
    (forall k :: 0 <= k < 4 ==> ValidField(Field(p, k), joints, k == 0)) && ValidStamp(p.timeFromStart)
  }

  predicate Distinct(names: seq<Text>)
  {
    forall i, j :: 0 <= i < j < |names| ==> names[i] != names[j]
  }

  predicate Valid(t: Trajectory)
  {
    && 0 < |t.names| < TWO_32 && Distinct(t.names) && 0 < |t.points| < TWO_32
    && ValidText(t.frame) && ValidStamp(t.stamp)
    && (forall i :: 0 <= i < |t.names| ==> ValidText(t.names[i]))
    && (forall i :: 0 <= i < |t.points| ==> ValidPoint(t.points[i], |t.names|))
  }

  // ----- the encoding

  function Pow256(w: nat): nat { if w == 0 then 1 else 0x100 * Pow256(w - 1) }

  /** The last `w` bytes of `n`, most significant first. */
  function BigEndian(n: nat, w: nat): (b: seq<byte>)
    ensures |b| == w
  {
    if w == 0 then [] else BigEndian(n / 0x100, w - 1) + [n % 0x100]
  }

  /** One code point, by section 3 of RFC 3629. */
  function Utf8Char(c: CodePoint): seq<byte>
  {
    if c < 0x80 then [c]
    else if c < 0x800 then [0xC0 + c / 0x40, 0x80 + c % 0x40]
    else if c < 0x10000 then [0xE0 + c / 0x1000, 0x80 + c / 0x40 % 0x40, 0x80 + c % 0x40]
    else [0xF0 + c / 0x40000, 0x80 + c / 0x1000 % 0x40, 0x80 + c / 0x40 % 0x40, 0x80 + c % 0x40]
  }

  function Joined<T>(f: T -> seq<byte>, xs: seq<T>): seq<byte>
  {
    if xs == [] then [] else f(xs[0]) + Joined(f, xs[1..])
  }

  function Utf8(t: Text): seq<byte> { Joined(Utf8Char, t) }

  function EncodeText(t: Text): seq<byte> { BigEndian(|Utf8(t)|, 4) + Utf8(t) }

  function EncodeValue(v: Value): seq<byte> { if v.Number? then BigEndian(v.bits, 8) else [] }

  function EncodeField(vs: seq<Value>): seq<byte> { BigEndian(|vs|, 4) + Joined(EncodeValue, vs) }

  /** Signed 64-bit two's complement, then unsigned 32-bit. */
  function EncodeStamp(s: Stamp): seq<byte>
  {
    BigEndian(s.sec % TWO_64, 8) + BigEndian(s.nanosec % TWO_32, 4)
  }

  function EncodePoint(p: Point): seq<byte>
  {
    EncodeField(p.positions) + EncodeField(p.velocities) + EncodeField(p.accelerations) + EncodeField(p.effort)
    + EncodeStamp(p.timeFromStart)
  }

  function EncodeNames(names: seq<Text>): seq<byte> { BigEndian(|names|, 4) + Joined(EncodeText, names) }

  function EncodePoints(points: seq<Point>): seq<byte> { BigEndian(|points|, 4) + Joined(EncodePoint, points) }

  function Encode(t: Trajectory): seq<byte>
  {
    SCHEMA_PREFIX + EncodeText(t.frame) + EncodeStamp(t.stamp) + EncodeNames(t.names) + EncodePoints(t.points)
  }

  // ----- the program

  function LeftStripped(t: Text): Text
  {
    if t != [] && IsSpace(t[0]) then LeftStripped(t[1..]) else t
  }

  function Strip(t: Text): Text
    decreases |t|
  {
    if t != [] && IsSpace(t[|t| - 1]) then Strip(t[..|t| - 1]) else LeftStripped(t)
  }

  lemma {:induction false} LeftStrippedShrinks(t: Text)
    ensures |LeftStripped(t)| <= |t| && (t != [] && IsSpace(t[0]) ==> |LeftStripped(t)| < |t|)
  {
    if t != [] && IsSpace(t[0]) { LeftStrippedShrinks(t[1..]); }
  }

  lemma {:induction false} StripShrinks(t: Text)
    ensures |Strip(t)| <= |t| && (t != [] && IsSpace(t[|t| - 1]) ==> |Strip(t)| < |t|)
    decreases |t|
  {
    LeftStrippedShrinks(t);
    if t != [] && IsSpace(t[|t| - 1]) { StripShrinks(t[..|t| - 1]); }
  }

  /** Stripping changes nothing exactly when neither end is white space. */
  lemma StripKeeps(t: Text)
    ensures Strip(t) == t <==> (t == [] || (!IsSpace(t[0]) && !IsSpace(t[|t| - 1])))
  {
    StripShrinks(t);
    LeftStrippedShrinks(t);
  }

  function TextBytes(t: Text): (r: Option<seq<byte>>)
    ensures r == if ValidText(t) then Some(EncodeText(t)) else None
  {
    StripKeeps(t);
    if t == [] || t != Strip(t) || !Scalars(t) then None
    else
      var encoded := Utf8(t);
      if |encoded| >= TWO_32 then None else Some(BigEndian(|encoded|, 4) + encoded)
  }

  function Unsigned(n: int, maximum: int): Option<int> { if 0 <= n <= maximum then Some(n) else None }

  function Signed(n: int): Option<int> { if -TWO_63 <= n < TWO_63 then Some(n) else None }

  function DurationBytes(s: Stamp): Option<seq<byte>>
  {
    if Signed(s.sec).None? || Unsigned(s.nanosec, 999_999_999).None? || s.sec < 0 then None
    else Some(BigEndian(s.sec, 8) + BigEndian(s.nanosec, 4))
  }

  lemma DurationIsStamp(s: Stamp)
    ensures DurationBytes(s) == if ValidStamp(s) then Some(EncodeStamp(s)) else None
  {
    hide BigEndian;
  }

  lemma Append<T>(f: T -> seq<byte>, xs: seq<T>, i: nat, head: seq<byte>)
    requires i < |xs|
    ensures head + Joined(f, xs[i..]) == (head + f(xs[i])) + Joined(f, xs[i + 1..])
  {
    assert xs[i..][1..] == xs[i + 1..];
    Regroup(head, f(xs[i]), Joined(f, xs[i + 1..]));
  }

  lemma Regroup(a: seq<byte>, b: seq<byte>, c: seq<byte>)
    ensures (a + b) + c == a + (b + c)
  {}

  method Float64Sequence(values: seq<Value>, joints: nat, required: bool) returns (r: Option<seq<byte>>)
    requires joints < TWO_32
    ensures r == if ValidField(values, joints, required) then Some(EncodeField(values)) else None
  {
    if !(|values| == joints || (!required && |values| == 0)) {
      return None;
    }
    var result := BigEndian(|values|, 4);
    assert values[0..] == values;
    for index := 0 to |values|
      invariant forall i :: 0 <= i < index ==> Finite(values[i])
      invariant result + Joined(EncodeValue, values[index..]) == EncodeField(values)
    {
      if !Finite(values[index]) {
        return None;
      }
      Append(EncodeValue, values, index, result);
      result := result + BigEndian(values[index].bits, 8);
    }
    assert result + [] == result;
    return Some(result);
  }

  /** A set is as large as the sequence it is made from exactly when nothing repeats. */
  lemma {:induction false} DistinctBySize(names: seq<Text>)
    ensures |set n | n in names| <= |names|
    ensures |set n | n in names| == |names| <==> Distinct(names)
  {
    if names != [] {
      var k := |names| - 1;
      var init, last := names[..k], names[k];
      DistinctBySize(init);
      var small, large := set n | n in init, set n | n in names;
      assert large == small + {last};
      if Distinct(names) {
        assert last !in init;
      } else if last !in init {
        var i, j :| 0 <= i < j < |names| && names[i] == names[j];
        assert j < k && init[i] == init[j];
      }
    }
  }

  method PointBytes(p: Point, joints: nat) returns (r: Option<seq<byte>>)
    requires joints < TWO_32
    ensures r == if ValidPoint(p, joints) then Some(EncodePoint(p)) else None
  {
    var fed: seq<byte> := [];
    for k := 0 to 4
      invariant forall i :: 0 <= i < k ==> ValidField(Field(p, i), joints, i == 0)
      invariant fed == FirstFields(p, k)
    {
      var values := Float64Sequence(Field(p, k), joints, k == 0);
      if values.None? {
        return None;
      }
      fed := fed + values.value;
    }
    DurationIsStamp(p.timeFromStart);
    var duration := DurationBytes(p.timeFromStart);
    if duration.None? {
      return None;
    }
    FourFields(p);
    return Some(fed + duration.value);
  }

  function FirstFields(p: Point, k: nat): seq<byte>
    requires k <= 4
  {
    if k == 0 then [] else FirstFields(p, k - 1) + EncodeField(Field(p, k - 1))
  }

  lemma FourFields(p: Point)
    ensures FirstFields(p, 4) + EncodeStamp(p.timeFromStart) == EncodePoint(p)
  {
    var f := EncodeField(p.positions);
    assert FirstFields(p, 1) == f by { assert [] + f == f; }
    assert FirstFields(p, 2) == f + EncodeField(p.velocities);
    assert FirstFields(p, 3) == f + EncodeField(p.velocities) + EncodeField(p.accelerations);
  }

  lemma BeforeFirst<T>(f: T -> seq<byte>, xs: seq<T>, head: seq<byte>, count: seq<byte>)
    ensures (head + count) + Joined(f, xs[0..]) == head + (count + Joined(f, xs))
  {
    assert xs[0..] == xs;
    Regroup(head, count, Joined(f, xs));
  }

  lemma AfterLast<T>(f: T -> seq<byte>, xs: seq<T>, fed: seq<byte>)
    ensures fed + Joined(f, xs[|xs|..]) == fed
  {
    assert Joined(f, xs[|xs|..]) == [];
  }

  /** The stream the digest is fed: the encoding of every valid trajectory, and an error for every other. */
  method CanonicalStream(t: Trajectory) returns (r: Option<seq<byte>>)
    ensures r == if Valid(t) then Some(Encode(t)) else None
  {
    hide BigEndian, EncodeText, EncodeStamp, EncodePoint, ValidText, ValidPoint, ValidStamp, Distinct, Ascii,
         DurationBytes, Joined;
    var names, points := t.names, t.points;
    if |names| == 0 || |names| >= TWO_32 {
      return None;
    }
    DistinctBySize(names);
    if |set n | n in names| != |names| {
      return None;
    }
    if |points| == 0 || |points| >= TWO_32 {
      return None;
    }
    DurationIsStamp(t.stamp);
    var frame, stamp := TextBytes(t.frame), DurationBytes(t.stamp);
    if frame.None? || stamp.None? {
      return None;
    }
    var fed := SCHEMA_PREFIX + frame.value + stamp.value;
    ghost var prelude := fed;
    fed := fed + BigEndian(|names|, 4);
    BeforeFirst(EncodeText, names, prelude, BigEndian(|names|, 4));
    for index := 0 to |names|
      invariant forall i :: 0 <= i < index ==> ValidText(names[i])
      invariant fed + Joined(EncodeText, names[index..]) == prelude + EncodeNames(names)
    {
      var name := TextBytes(names[index]);
      if name.None? {
        return None;
      }
      Append(EncodeText, names, index, fed);
      fed := fed + name.value;
    }
    AfterLast(EncodeText, names, fed);
    ghost var named := fed;
    fed := fed + BigEndian(|points|, 4);
    BeforeFirst(EncodePoint, points, named, BigEndian(|points|, 4));
    for index := 0 to |points|
      invariant forall i :: 0 <= i < index ==> ValidPoint(points[i], |names|)
      invariant fed + Joined(EncodePoint, points[index..]) == named + EncodePoints(points)
    {
      var point := PointBytes(points[index], |names|);
      if point.None? {
        return None;
      }
      Append(EncodePoint, points, index, fed);
      fed := fed + point.value;
    }
    AfterLast(EncodePoint, points, fed);
    return Some(fed);
  }

  // ----- the decoder

  datatype Parsed<+T> = Bad | Done(value: T, rest: seq<byte>)

  function Value256(b: seq<byte>): nat
  {
    if b == [] then 0 else 0x100 * Value256(b[..|b| - 1]) + b[|b| - 1]
  }

  function TakeNumber(b: seq<byte>, w: nat): Parsed<nat>
  {
    if |b| < w then Bad else Done(Value256(b[..w]), b[w..])
  }

  function ParseMany<T>(p: seq<byte> -> Parsed<T>, n: nat, b: seq<byte>): Parsed<seq<T>>
  {
    if n == 0 then Done([], b)
    else match p(b)
      case Bad => Bad
      case Done(x, rest) =>
        match ParseMany(p, n - 1, rest)
        case Bad => Bad
        case Done(xs, rest') => Done([x] + xs, rest')
  }

  /** A length, then that many items. */
  function ParseList<T>(p: seq<byte> -> Parsed<T>, b: seq<byte>): Parsed<seq<T>>
  {
    match TakeNumber(b, 4)
    case Bad => Bad
    case Done(n, rest) => ParseMany(p, n, rest)
  }

  function Less(b: byte, mark: int): int { b - mark }

  predicate Tail(b: byte) { 0x80 <= b < 0xC0 }

  /** One code point by section 3 of RFC 3629: no overlong form, no surrogate, nothing past U+10FFFF. */
  function ParseChar(b: seq<byte>): Parsed<CodePoint>
  {
    if b == [] then Bad
    else if b[0] < 0x80 then Done(b[0], b[1..])
    else if 0xC2 <= b[0] < 0xE0 && |b| >= 2 && Tail(b[1]) then
      Done(0x40 * Less(b[0], 0xC0) + Less(b[1], 0x80), b[2..])
    else if 0xE0 <= b[0] < 0xF0 && |b| >= 3 && Tail(b[1]) && Tail(b[2]) then
      var c := 0x1000 * Less(b[0], 0xE0) + 0x40 * Less(b[1], 0x80) + Less(b[2], 0x80);
      if c < 0x800 || 0xD800 <= c <= 0xDFFF then Bad else Done(c, b[3..])
    else if 0xF0 <= b[0] < 0xF5 && |b| >= 4 && Tail(b[1]) && Tail(b[2]) && Tail(b[3]) then
      var c := 0x40000 * Less(b[0], 0xF0) + 0x1000 * Less(b[1], 0x80) + 0x40 * Less(b[2], 0x80) + Less(b[3], 0x80);
      if c < 0x10000 || c > 0x10FFFF then Bad else Done(c, b[4..])
    else Bad
  }

  function ParseUtf8(b: seq<byte>): Option<Text>
    decreases |b|
  {
    if b == [] then Some([])
    else match ParseChar(b)
      case Bad => None
      case Done(c, rest) =>
        match ParseUtf8(rest)
        case None => None
        case Some(t) => Some([c] + t)
  }

  function ParseText(b: seq<byte>): Parsed<Text>
  {
    match TakeNumber(b, 4)
    case Bad => Bad
    case Done(n, rest) =>
      if |rest| < n then Bad
      else match ParseUtf8(rest[..n])
        case None => Bad
        case Some(t) => Done(t, rest[n..])
  }

  function ParseValue(b: seq<byte>): Parsed<Value>
  {
    match TakeNumber(b, 8)
    case Bad => Bad
    case Done(n, rest) => if n < TWO_64 then Done(Number(n), rest) else Bad
  }

  function ParseStamp(b: seq<byte>): Parsed<Stamp>
  {
    match TakeNumber(b, 8)
    case Bad => Bad
    case Done(sec, rest) =>
      match TakeNumber(rest, 4)
      case Bad => Bad
      case Done(nanosec, rest') => Done(Stamp(if sec < TWO_63 then sec else sec - TWO_64, nanosec), rest')
  }

  function ParseField(b: seq<byte>): Parsed<seq<Value>> { ParseList(ParseValue, b) }

  function ParsePoint(b: seq<byte>): Parsed<Point>
  {
    var p := ParseField(b);
    if p.Bad? then Bad else
    var v := ParseField(p.rest);
    if v.Bad? then Bad else
    var a := ParseField(v.rest);
    if a.Bad? then Bad else
    var e := ParseField(a.rest);
    if e.Bad? then Bad else
    var t := ParseStamp(e.rest);
    if t.Bad? then Bad else Done(Point(p.value, v.value, a.value, e.value, t.value), t.rest)
  }

  function Decode(b: seq<byte>): Parsed<Trajectory>
  {
    var k := |SCHEMA_PREFIX|;
    if |b| < k || b[..k] != SCHEMA_PREFIX then Bad else
    var f := ParseText(b[k..]);
    if f.Bad? then Bad else
    var s := ParseStamp(f.rest);
    if s.Bad? then Bad else
    var n := ParseList(ParseText, s.rest);
    if n.Bad? then Bad else
    var p := ParseList(ParsePoint, n.rest);
    if p.Bad? then Bad else Done(Trajectory(f.value, s.value, n.value, p.value), p.rest)
  }

  // ----- parsers invert encoders

  /** `p` reads back `x` from its encoding, whatever follows. */
  ghost predicate Reads<T>(p: seq<byte> -> Parsed<T>, f: T -> seq<byte>, x: T)
  {
    forall rest :: p(f(x) + rest) == Done(x, rest)
  }

  /** Whatever `p` accepts is the encoding of what it returns. */
  ghost predicate Exact<T(!new)>(p: seq<byte> -> Parsed<T>, f: T -> seq<byte>)
  {
    forall b :: p(b).Done? ==> b == f(p(b).value) + p(b).rest
  }

  lemma {:induction false} BigEndianValue(n: nat, w: nat)
    requires n < Pow256(w)
    ensures Value256(BigEndian(n, w)) == n
  {
    if w > 0 {
      BigEndianValue(n / 0x100, w - 1);
      var b := BigEndian(n, w);
      assert b[..|b| - 1] == BigEndian(n / 0x100, w - 1);
    }
  }

  lemma {:induction false} ValueBigEndian(b: seq<byte>)
    ensures Value256(b) < Pow256(|b|) && BigEndian(Value256(b), |b|) == b
  {
    if b != [] {
      var k := |b| - 1;
      ValueBigEndian(b[..k]);
      assert b[..k] + [b[k]] == b;
    }
  }

  lemma NumberRead(n: nat, w: nat, rest: seq<byte>)
    requires n < Pow256(w)
    ensures TakeNumber(BigEndian(n, w) + rest, w) == Done(n, rest)
  {
    var b := BigEndian(n, w) + rest;
    assert b[..w] == BigEndian(n, w) && b[w..] == rest;
    BigEndianValue(n, w);
  }

  lemma NumberExact(b: seq<byte>, w: nat)
    requires w <= |b|
    ensures var r := TakeNumber(b, w); r.value < Pow256(w) && b == BigEndian(r.value, w) + r.rest
  {
    ValueBigEndian(b[..w]);
    assert b == b[..w] + b[w..];
  }

  lemma {:induction false} ManyRead<T>(p: seq<byte> -> Parsed<T>, f: T -> seq<byte>, xs: seq<T>, rest: seq<byte>)
    requires forall i :: 0 <= i < |xs| ==> Reads(p, f, xs[i])
    ensures ParseMany(p, |xs|, Joined(f, xs) + rest) == Done(xs, rest)
  {
    if xs != [] {
      var tail := Joined(f, xs[1..]);
      Regroup(f(xs[0]), tail, rest);
      assert Reads(p, f, xs[0]);
      assert p(f(xs[0]) + (tail + rest)) == Done(xs[0], tail + rest);
      ManyRead(p, f, xs[1..], rest);
      assert [xs[0]] + xs[1..] == xs;
    } else {
      assert Joined(f, xs) + rest == rest;
    }
  }

  lemma {:induction false} ManyExact<T(!new)>(p: seq<byte> -> Parsed<T>, f: T -> seq<byte>, n: nat, b: seq<byte>)
    requires Exact(p, f)
    ensures var r := ParseMany(p, n, b); r.Done? ==> |r.value| == n && b == Joined(f, r.value) + r.rest
  {
    var r := ParseMany(p, n, b);
    if r.Done? && n > 0 {
      var rest := p(b).rest;
      ManyExact(p, f, n - 1, rest);
      var xs := ParseMany(p, n - 1, rest).value;
      assert r.value[1..] == xs;
      Regroup(f(p(b).value), Joined(f, xs), r.rest);
    } else if r.Done? {
      assert [] + b == b;
    }
  }

  lemma ListRead<T>(p: seq<byte> -> Parsed<T>, f: T -> seq<byte>, xs: seq<T>, rest: seq<byte>)
    requires |xs| < TWO_32
    requires forall i :: 0 <= i < |xs| ==> Reads(p, f, xs[i])
    ensures ParseList(p, BigEndian(|xs|, 4) + Joined(f, xs) + rest) == Done(xs, rest)
  {
    Regroup(BigEndian(|xs|, 4), Joined(f, xs), rest);
    NumberRead(|xs|, 4, Joined(f, xs) + rest);
    ManyRead(p, f, xs, rest);
  }

  lemma ListExact<T(!new)>(p: seq<byte> -> Parsed<T>, f: T -> seq<byte>, b: seq<byte>)
    requires Exact(p, f)
    ensures var r := ParseList(p, b); r.Done? ==>
              |r.value| < TWO_32 && b == BigEndian(|r.value|, 4) + Joined(f, r.value) + r.rest
  {
    var r := ParseList(p, b);
    if r.Done? {
      NumberExact(b, 4);
      var n := TakeNumber(b, 4);
      ManyExact(p, f, n.value, n.rest);
      Regroup(BigEndian(|r.value|, 4), Joined(f, r.value), r.rest);
    }
  }

  // ----- text

  /** The base-64 digits of a code point put together again. */
  lemma Digits(c: CodePoint)
    ensures c == 0x40 * (c / 0x40) + c % 0x40
    ensures c == 0x1000 * (c / 0x1000) + 0x40 * (c / 0x40 % 0x40) + c % 0x40
    ensures c == 0x40000 * (c / 0x40000) + 0x1000 * (c / 0x1000 % 0x40) + 0x40 * (c / 0x40 % 0x40) + c % 0x40
  {
    var q := c / 0x40;
    assert c / 0x1000 == q / 0x40;
    assert c / 0x40000 == q / 0x40 / 0x40;
  }

  /** The digits of a number put together from digits. */
  lemma DigitsOf(x: nat, y: nat, z: nat, w: nat)
    requires y < 0x40 && z < 0x40 && w < 0x40
    ensures var c := 0x40000 * x + 0x1000 * y + 0x40 * z + w;
            c / 0x40000 == x && c / 0x1000 % 0x40 == y && c / 0x40 % 0x40 == z && c % 0x40 == w
            && c / 0x1000 == 0x40 * x + y && c / 0x40 == 0x1000 * x + 0x40 * y + z
  {
    var c := 0x40000 * x + 0x1000 * y + 0x40 * z + w;
    assert c / 0x40 == 0x1000 * x + 0x40 * y + z;
    assert c / 0x1000 == 0x40 * x + y;
  }

  lemma CharRead(c: CodePoint, rest: seq<byte>)
    requires !IsSurrogate(c)
    ensures ParseChar(Utf8Char(c) + rest) == Done(c, rest)
  {
    var u := Utf8Char(c);
    var b := u + rest;
    assert b[|u|..] == rest;
    Digits(c);
    ParsedBytes(u, c);
    ParseLocal(u, rest);
  }

  /** What the decoder reads from the form of one code point alone. */
  lemma ParsedBytes(u: seq<byte>, c: CodePoint)
    requires u == Utf8Char(c) && !IsSurrogate(c)
    ensures ParseChar(u) == Done(c, [])
  {
    var q, r, s := c / 0x40, c / 0x1000, c / 0x40000;
    Digits(c);
  }

  /** The decoder looks no further than the bytes it consumes. */
  lemma ParseLocal(u: seq<byte>, rest: seq<byte>)
    requires ParseChar(u).Done? && ParseChar(u).rest == []
    ensures ParseChar(u + rest) == Done(ParseChar(u).value, rest)
  {
    assert (u + rest)[|u|..] == rest;
  }

  lemma CharExact(b: seq<byte>)
    ensures var r := ParseChar(b); r.Done? ==> !IsSurrogate(r.value) && b == Utf8Char(r.value) + r.rest
  {
    var r := ParseChar(b);
    if r.Done? {
      var k := |b| - |r.rest|;
      assert b == b[..k] + b[k..];
      CharForm(b, k);
    }
  }

  lemma CharForm(b: seq<byte>, k: nat)
    requires ParseChar(b).Done? && k == |b| - |ParseChar(b).rest|
    ensures !IsSurrogate(ParseChar(b).value) && b[..k] == Utf8Char(ParseChar(b).value)
  {
    if k == 1 {
      assert b[..1] == [b[0]];
    } else {
      hide Utf8Char;
      if k == 2 { TwoBytes(Less(b[0], 0xC0), Less(b[1], 0x80)); }
      else if k == 3 { ThreeBytes(Less(b[0], 0xE0), Less(b[1], 0x80), Less(b[2], 0x80)); }
      else { FourBytes(Less(b[0], 0xF0), Less(b[1], 0x80), Less(b[2], 0x80), Less(b[3], 0x80)); }
    }
  }

  lemma TwoBytes(z: nat, w: nat)
    requires 2 <= z < 0x20 && w < 0x40
    ensures Utf8Char(0x40 * z + w) == [0xC0 + z, 0x80 + w]
  {
    DigitsOf(0, 0, z, w);
  }

  lemma ThreeBytes(y: nat, z: nat, w: nat)
    requires y < 0x10 && z < 0x40 && w < 0x40 && 0x1000 * y + 0x40 * z + w >= 0x800
    ensures Utf8Char(0x1000 * y + 0x40 * z + w) == [0xE0 + y, 0x80 + z, 0x80 + w]
  {
    DigitsOf(0, y, z, w);
  }

  lemma FourBytes(x: nat, y: nat, z: nat, w: nat)
    requires x < 5 && y < 0x40 && z < 0x40 && w < 0x40
    requires 0x10000 <= 0x40000 * x + 0x1000 * y + 0x40 * z + w <= 0x10FFFF
    ensures Utf8Char(0x40000 * x + 0x1000 * y + 0x40 * z + w) == [0xF0 + x, 0x80 + y, 0x80 + z, 0x80 + w]
  {
    DigitsOf(x, y, z, w);
  }

  /** Every text without surrogates is decoded from its UTF-8 form. */
  lemma {:induction false} Utf8Read(t: Text)
    requires Scalars(t)
    ensures ParseUtf8(Utf8(t)) == Some(t)
  {
    if t != [] {
      CharRead(t[0], Utf8(t[1..]));
      Utf8Read(t[1..]);
      assert [t[0]] + t[1..] == t;
    }
  }

  /** Every byte string the UTF-8 decoder accepts is the UTF-8 form of what it returns. */
  lemma {:induction false} Utf8Exact(b: seq<byte>)
    ensures var r := ParseUtf8(b); r.Some? ==> Scalars(r.value) && Utf8(r.value) == b
    decreases |b|
  {
    var r := ParseUtf8(b);
    if b != [] && r.Some? {
      CharExact(b);
      var c := ParseChar(b);
      Utf8Exact(c.rest);
      var t := ParseUtf8(c.rest).value;
      assert r.value[1..] == t;
    }
  }

  lemma TextRead(t: Text)
    requires Scalars(t) && |Utf8(t)| < TWO_32
    ensures Reads(ParseText, EncodeText, t)
  {
    var u := Utf8(t);
    Utf8Read(t);
    forall rest ensures ParseText(EncodeText(t) + rest) == Done(t, rest) {
      Regroup(BigEndian(|u|, 4), u, rest);
      NumberRead(|u|, 4, u + rest);
      assert (u + rest)[..|u|] == u && (u + rest)[|u|..] == rest;
    }
  }

  lemma TextExact()
    ensures Exact(ParseText, EncodeText)
  {
    forall b | ParseText(b).Done? ensures b == EncodeText(ParseText(b).value) + ParseText(b).rest { OneTextExact(b); }
  }

  lemma OneTextExact(b: seq<byte>)
    requires ParseText(b).Done?
    ensures b == EncodeText(ParseText(b).value) + ParseText(b).rest
  {
    hide BigEndian, ParseUtf8, Utf8;
    NumberExact(b, 4);
    var n, rest := TakeNumber(b, 4).value, TakeNumber(b, 4).rest;
    Utf8Exact(rest[..n]);
    assert rest == rest[..n] + rest[n..];
    hide TakeNumber;
    Regroup(BigEndian(n, 4), rest[..n], rest[n..]);
  }

  // ----- fields, stamps and points

  lemma ValueRead(v: Value)
    requires v.Number?
    ensures Reads(ParseValue, EncodeValue, v)
  {
    forall rest ensures ParseValue(EncodeValue(v) + rest) == Done(v, rest) { NumberRead(v.bits, 8, rest); }
  }

  lemma ValueExact()
    ensures Exact(ParseValue, EncodeValue)
  {
    forall b | ParseValue(b).Done?
        ensures b == EncodeValue(ParseValue(b).value) + ParseValue(b).rest { NumberExact(b, 8); }
  }

  lemma FieldRead(vs: seq<Value>, joints: nat, required: bool, rest: seq<byte>)
    requires joints < TWO_32 && ValidField(vs, joints, required)
    ensures ParseField(EncodeField(vs) + rest) == Done(vs, rest)
  {
    forall i | 0 <= i < |vs| ensures Reads(ParseValue, EncodeValue, vs[i]) {
      assert Finite(vs[i]);
      ValueRead(vs[i]);
    }
    ListRead(ParseValue, EncodeValue, vs, rest);
  }

  lemma FieldExact(b: seq<byte>)
    ensures var r := ParseField(b); r.Done? ==> b == EncodeField(r.value) + r.rest
  {
    ValueExact();
    ListExact(ParseValue, EncodeValue, b);
  }

  lemma Widths()
    ensures Pow256(4) == TWO_32 && Pow256(8) == TWO_64
  {}

  lemma StampRead(s: Stamp, rest: seq<byte>)
    requires -TWO_63 <= s.sec < TWO_63 && 0 <= s.nanosec < TWO_32
    ensures ParseStamp(EncodeStamp(s) + rest) == Done(s, rest)
  {
    Widths();
    hide BigEndian, Pow256, TakeNumber;
    var sec, nanosec := BigEndian(s.sec % TWO_64, 8), BigEndian(s.nanosec % TWO_32, 4);
    Regroup(sec, nanosec, rest);
    NumberRead(s.sec % TWO_64, 8, nanosec + rest);
    NumberRead(s.nanosec, 4, rest);
  }

  lemma StampExact(b: seq<byte>)
    ensures var r := ParseStamp(b); r.Done? ==> b == EncodeStamp(r.value) + r.rest
  {
    hide BigEndian, Pow256, Value256, EncodeStamp;
    var r := ParseStamp(b);
    if r.Done? {
      var sec := TakeNumber(b, 8);
      var nanosec := TakeNumber(sec.rest, 4);
      hide *;
      NumberExact(b, 8);
      NumberExact(sec.rest, 4);
      Widths();
      StampForm(sec.value, nanosec.value);
      Regroup(BigEndian(sec.value, 8), BigEndian(nanosec.value, 4), nanosec.rest);
    }
  }

  lemma StampForm(sec: nat, nanosec: nat)
    requires sec < TWO_64 && nanosec < TWO_32
    ensures EncodeStamp(Stamp(if sec < TWO_63 then sec else sec - TWO_64, nanosec))
        == BigEndian(sec, 8) + BigEndian(nanosec, 4)
  {
    hide BigEndian;
    SignedBits(sec);
    assert nanosec % TWO_32 == nanosec;
  }

  lemma SignedBits(n: nat)
    requires n < TWO_64
    ensures (if n < TWO_63 then n else n - TWO_64) % TWO_64 == n
  {
    if n >= TWO_63 {
      Wrap(n, TWO_64);
    }
  }

  lemma Wrap(n: nat, m: nat)
    requires n < m
    ensures (n - m) % m == n
  {
    var x := n - m;
    assert x == m * (x / m) + x % m;
  }

  lemma Regroup5(a: seq<byte>, b: seq<byte>, c: seq<byte>, d: seq<byte>, e: seq<byte>, rest: seq<byte>)
    ensures (a + b + c + d + e) + rest == a + (b + (c + (d + (e + rest))))
  {
    Regroup(a + b + c + d, e, rest);
    Regroup(a + b + c, d, e + rest);
    Regroup(a + b, c, d + (e + rest));
    Regroup(a, b, c + (d + (e + rest)));
  }

  lemma PointRead(p: Point, joints: nat)
    requires joints < TWO_32 && ValidPoint(p, joints)
    ensures Reads(ParsePoint, EncodePoint, p)
  {
    forall rest ensures ParsePoint(EncodePoint(p) + rest) == Done(p, rest) {
      assert forall k :: 0 <= k < 4 ==> ValidField(Field(p, k), joints, k == 0);
      var t := EncodeStamp(p.timeFromStart) + rest;
      var e := EncodeField(p.effort) + t;
      var a := EncodeField(p.accelerations) + e;
      var v := EncodeField(p.velocities) + a;
      FieldRead(Field(p, 0), joints, true, v);
      FieldRead(Field(p, 1), joints, false, a);
      FieldRead(Field(p, 2), joints, false, e);
      FieldRead(Field(p, 3), joints, false, t);
      StampRead(p.timeFromStart, rest);
      hide *;
      Regroup5(EncodeField(p.positions), EncodeField(p.velocities), EncodeField(p.accelerations),
               EncodeField(p.effort), EncodeStamp(p.timeFromStart), rest);
      PointReadParts(p, v, a, e, t, rest);
    }
  }

  lemma PointReadParts(p: Point, v: seq<byte>, a: seq<byte>, e: seq<byte>, t: seq<byte>, rest: seq<byte>)
    requires ParseField(EncodeField(p.positions) + v) == Done(p.positions, v)
    requires ParseField(v) == Done(p.velocities, a)
    requires ParseField(a) == Done(p.accelerations, e)
    requires ParseField(e) == Done(p.effort, t)
    requires ParseStamp(t) == Done(p.timeFromStart, rest)
    ensures ParsePoint(EncodeField(p.positions) + v) == Done(p, rest)
  {
    hide ParseField, EncodeField, ParseStamp;
  }

  lemma PointExact()
    ensures Exact(ParsePoint, EncodePoint)
  {
    forall b | ParsePoint(b).Done? ensures b == EncodePoint(ParsePoint(b).value) + ParsePoint(b).rest {
      var p := ParseField(b);
      var v := ParseField(p.rest);
      var a := ParseField(v.rest);
      var e := ParseField(a.rest);
      var t := ParseStamp(e.rest);
      hide ParseField, ParseStamp, EncodeField, EncodeStamp;
      FieldExact(b);
      FieldExact(p.rest);
      FieldExact(v.rest);
      FieldExact(a.rest);
      StampExact(e.rest);
      Regroup5(EncodeField(p.value), EncodeField(v.value), EncodeField(a.value), EncodeField(e.value),
               EncodeStamp(t.value), t.rest);
    }
  }

  // ----- whole trajectories

  /** The stream of a valid trajectory decodes to that trajectory, with whatever follows left over. */
  lemma RoundTrip(t: Trajectory, rest: seq<byte>)
    requires Valid(t)
    ensures Decode(Encode(t) + rest) == Done(t, rest)
  {
    var points := EncodePoints(t.points) + rest;
    var names := EncodeNames(t.names) + points;
    var stamp := EncodeStamp(t.stamp) + names;
    TextRead(t.frame);
    assert ParseText(EncodeText(t.frame) + stamp) == Done(t.frame, stamp);
    StampRead(t.stamp, names);
    forall i | 0 <= i < |t.names| ensures Reads(ParseText, EncodeText, t.names[i]) { TextRead(t.names[i]); }
    ListRead(ParseText, EncodeText, t.names, points);
    forall i | 0 <= i < |t.points|
        ensures Reads(ParsePoint, EncodePoint, t.points[i]) { PointRead(t.points[i], |t.names|); }
    ListRead(ParsePoint, EncodePoint, t.points, rest);
    hide *;
    RoundTripParts(t, stamp, names, points, rest);
  }

  lemma RoundTripParts(t: Trajectory, stamp: seq<byte>, names: seq<byte>, points: seq<byte>, rest: seq<byte>)
    requires points == EncodePoints(t.points) + rest && names == EncodeNames(t.names) + points
    requires stamp == EncodeStamp(t.stamp) + names
    requires ParseText(EncodeText(t.frame) + stamp) == Done(t.frame, stamp)
    requires ParseStamp(stamp) == Done(t.stamp, names)
    requires ParseList(ParseText, names) == Done(t.names, points)
    requires ParseList(ParsePoint, points) == Done(t.points, rest)
    ensures Decode(Encode(t) + rest) == Done(t, rest)
  {
    hide ParseText, ParseStamp, ParseList, ParsePoint, EncodeText, EncodeStamp, EncodeNames, EncodePoints, Ascii;
    var b := Encode(t) + rest;
    Regroup5(SCHEMA_PREFIX, EncodeText(t.frame), EncodeStamp(t.stamp), EncodeNames(t.names), EncodePoints(t.points),
        rest);
    var tail := EncodeText(t.frame) + stamp;
    assert b == SCHEMA_PREFIX + tail;
    assert b[..|SCHEMA_PREFIX|] == SCHEMA_PREFIX && b[|SCHEMA_PREFIX|..] == tail;
  }

  /** Every stream the decoder accepts is the encoding of what it returns. */
  lemma DecodeExact(b: seq<byte>)
    ensures var r := Decode(b); r.Done? ==> b == Encode(r.value) + r.rest
  {
    hide Ascii, ParseText, ParseStamp, ParseList, ParsePoint, BigEndian, Joined;
    var r := Decode(b);
    if r.Done? {
      var k := |SCHEMA_PREFIX|;
      var f := ParseText(b[k..]);
      var s := ParseStamp(f.rest);
      var n := ParseList(ParseText, s.rest);
      var p := ParseList(ParsePoint, n.rest);
      assert r == Done(Trajectory(f.value, s.value, n.value, p.value), p.rest);
      assert b == SCHEMA_PREFIX + b[k..];
      hide Decode, EncodeText;
      assert b[k..] == EncodeText(f.value) + f.rest by { TextExact(); }
      hide *;
      StampExact(f.rest);
      NamesExact(s.rest);
      PointsExact(n.rest);
      EncodeParts(b, b[k..], f.value, f.rest, s.value, s.rest, n.value, n.rest, p.value, p.rest);
    }
  }

  lemma NamesExact(b: seq<byte>)
    ensures var r := ParseList(ParseText, b); r.Done? ==> b == EncodeNames(r.value) + r.rest
  {
    TextExact();
    ListExact(ParseText, EncodeText, b);
  }

  lemma PointsExact(b: seq<byte>)
    ensures var r := ParseList(ParsePoint, b); r.Done? ==> b == EncodePoints(r.value) + r.rest
  {
    PointExact();
    ListExact(ParsePoint, EncodePoint, b);
  }

  lemma EncodeParts(b: seq<byte>, b0: seq<byte>, frame: Text, b1: seq<byte>, stamp: Stamp, b2: seq<byte>,
                    names: seq<Text>, b3: seq<byte>, points: seq<Point>, rest: seq<byte>)
    requires b == SCHEMA_PREFIX + b0 && b0 == EncodeText(frame) + b1 && b1 == EncodeStamp(stamp) + b2
    requires b2 == EncodeNames(names) + b3 && b3 == EncodePoints(points) + rest
    ensures b == Encode(Trajectory(frame, stamp, names, points)) + rest
  {
    hide EncodeText, EncodeStamp, EncodeNames, EncodePoints, Ascii;
    Regroup5(SCHEMA_PREFIX, EncodeText(frame), EncodeStamp(stamp), EncodeNames(names), EncodePoints(points), rest);
  }

  /** Equal streams mean equal trajectories, and no stream is a proper prefix of another. */
  lemma StreamIsInjective(t: Trajectory, u: Trajectory, rest: seq<byte>, rest': seq<byte>)
    requires Valid(t) && Valid(u)
    requires Encode(t) + rest == Encode(u) + rest'
    ensures t == u && rest == rest'
  {
    hide *;
    RoundTrip(t, rest);
    RoundTrip(u, rest');
  }

  /** A byte string is the stream of a valid trajectory exactly when the decoder consumes all of it and
      returns a valid trajectory. */
  lemma StreamsAreDecodable(b: seq<byte>)
    ensures (exists t :: Valid(t) && b == Encode(t)) <==>
            (Decode(b).Done? && Decode(b).rest == [] && Valid(Decode(b).value))
  {
    hide *;
    if t :| Valid(t) && b == Encode(t) {
      RoundTrip(t, []);
      assert b + [] == b;
    }
    DecodeExact(b);
    if Decode(b).Done? && Decode(b).rest == [] && Valid(Decode(b).value) {
      assert b == Encode(Decode(b).value);
    }
  }

  // ----- one stream, byte by byte

  /** Frame "b" at 1 s and 2 ns, one joint "j", one point: position 1.0, velocity -2.0, no acceleration, effort 0.5, at
      3 s and 4 ns. */
  const SMALL: Trajectory :=
    Trajectory([0x62], Stamp(1, 2), [[0x6A]],
               [Point([Number(0x3FF0_0000_0000_0000)], [Number(0xC000_0000_0000_0000)], [],
                      [Number(0x3FE0_0000_0000_0000)], Stamp(3, 4))])

  lemma SmallNumbers()
    ensures BigEndian(0, 4) == [0, 0, 0, 0] && BigEndian(1, 4) == [0, 0, 0, 1]
    ensures BigEndian(2, 4) == [0, 0, 0, 2] && BigEndian(4, 4) == [0, 0, 0, 4]
    ensures BigEndian(1, 8) == [0, 0, 0, 0, 0, 0, 0, 1] && BigEndian(3, 8) == [0, 0, 0, 0, 0, 0, 0, 3]
  {}

  lemma OneBytes()
    ensures BigEndian(0x3FF0_0000_0000_0000, 8) == [0x3F, 0xF0, 0, 0, 0, 0, 0, 0]
  {}

  lemma MinusTwoBytes()
    ensures BigEndian(0xC000_0000_0000_0000, 8) == [0xC0, 0, 0, 0, 0, 0, 0, 0]
  {}

  lemma HalfBytes()
    ensures BigEndian(0x3FE0_0000_0000_0000, 8) == [0x3F, 0xE0, 0, 0, 0, 0, 0, 0]
  {}

  lemma JoinedOne<T>(f: T -> seq<byte>, x: T)
    ensures Joined(f, [x]) == f(x) && Joined<T>(f, []) == []
  {
    assert [x][1..] == [] && f(x) + [] == f(x);
  }

  /** The order of the parts, their widths and the order of the bytes. */
  lemma SmallStream()
    ensures Valid(SMALL)
    ensures Encode(SMALL) ==
            Ascii("z_manip.joint_trajectory.sha256.v1") + [0]
            + ([0, 0, 0, 1] + [0x62]) + ([0, 0, 0, 0, 0, 0, 0, 1] + [0, 0, 0, 2])
            + ([0, 0, 0, 1] + ([0, 0, 0, 1] + [0x6A]))
            + ([0, 0, 0, 1]
               + (([0, 0, 0, 1] + [0x3F, 0xF0, 0, 0, 0, 0, 0, 0]) + ([0, 0, 0, 1] + [0xC0, 0, 0, 0, 0, 0, 0, 0])
                  + ([0, 0, 0, 0] + []) + ([0, 0, 0, 1] + [0x3F, 0xE0, 0, 0, 0, 0, 0, 0])
                  + ([0, 0, 0, 0, 0, 0, 0, 3] + [0, 0, 0, 4])))
  {
    hide BigEndian, Ascii, Joined;
    SmallNumbers();
    OneBytes();
    MinusTwoBytes();
    HalfBytes();
    JoinedOne(Utf8Char, 0x62);
    JoinedOne(Utf8Char, 0x6A);
    JoinedOne(EncodeText, [0x6A]);
    JoinedOne(EncodePoint, SMALL.points[0]);
    JoinedOne(EncodeValue, Number(0x3FF0_0000_0000_0000));
    JoinedOne(EncodeValue, Number(0xC000_0000_0000_0000));
    JoinedOne(EncodeValue, Number(0x3FE0_0000_0000_0000));
  }
}
