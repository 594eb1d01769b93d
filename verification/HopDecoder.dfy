/**
 The protobuf decoder of the Circuit Relay v2 client.

 A varint is at most ten bytes, seven bits each, least significant first.  A message is a run of
 fields, each a tag followed by a varint or by a length and that many bytes.  Encoding is not part of
 the program; it is written here after the Protocol Buffers encoding guide, section "Base 128
 Varints" and section "Message Structure", as what decoding must invert.
 */
module HopDecoder {
  import opened HashGraphs

  type Byte = b: int | 0 <= b < 256

  const MAX_SAFE_INTEGER: nat := 9007199254740991
  const VARINT_BYTES: nat := 10

  function Power(i: nat): (r: nat)
    ensures r > 0
  {
    if i == 0 then 1 else 128 * Power(i - 1)
  }

  datatype Varint = Varint(value: nat, next: nat)

  /** The varint at `offset`, of which `i` bytes were read already; None when it does not end in time. */
  function ReadFrom(bytes: seq<Byte>, offset: nat, i: nat): (r: Option<Varint>)
    ensures r.Some? ==> offset < r.value.next <= |bytes|
    decreases VARINT_BYTES - i
  {
    if i >= VARINT_BYTES || offset >= |bytes| then None
    else if bytes[offset] < 128 then Some(Varint(bytes[offset], offset + 1))
    else match ReadFrom(bytes, offset + 1, i + 1)
      case None => None
      case Some(v) => Some(Varint(bytes[offset] - 128 + 128 * v.value, v.next))
  }

  /** Or seven bits per byte into the value, until a byte without the continuation bit. */
  method ReadVarint(bytes: seq<Byte>, offset: nat) returns (r: Option<Varint>)
    ensures r == ReadFrom(bytes, offset, 0)
  {
    hide ReadFrom, Lift;
    LiftNothing(ReadFrom(bytes, offset, 0));
    var value: nat, at: nat, scale: nat, i: nat := 0, offset, 1, 0;
    while i < VARINT_BYTES && at < |bytes|
      invariant i <= VARINT_BYTES
      invariant ReadFrom(bytes, offset, 0) == Lift(ReadFrom(bytes, at, i), value, scale)
      decreases VARINT_BYTES - i
    {
      var byte: int := bytes[at];
      LiftStep(bytes, at, i, value, scale);
      at := at + 1;
      value := value + (byte % 128) * scale;
      if byte < 128 { return Some(Varint(value, at)); }
      scale := 128 * scale;
      i := i + 1;
    }
    LiftEnd(bytes, at, i, value, scale);
    r := None;
  }

  /** The low bits read so far under the rest. */
  function Lift(r: Option<Varint>, value: nat, scale: nat): Option<Varint> {
    match r case None => None case Some(v) => Some(Varint(value + v.value * scale, v.next))
  }

  lemma LiftNothing(r: Option<Varint>)
    ensures Lift(r, 0, 1) == r
  {}

  lemma LiftEnd(bytes: seq<Byte>, at: nat, i: nat, value: nat, scale: nat)
    requires i >= VARINT_BYTES || at >= |bytes|
    ensures Lift(ReadFrom(bytes, at, i), value, scale) == None
  {}

  lemma LiftStep(bytes: seq<Byte>, at: nat, i: nat, value: nat, scale: nat)
    requires i < VARINT_BYTES && at < |bytes|
    ensures var low: nat := value + (bytes[at] as int % 128) * scale;
            Lift(ReadFrom(bytes, at, i), value, scale)
            == if bytes[at] < 128 then Some(Varint(low, at + 1))
                else Lift(ReadFrom(bytes, at + 1, i + 1), low, 128 * scale)
  {
    var tail := ReadFrom(bytes, at + 1, i + 1);
    if bytes[at] >= 128 && tail.Some? { Shift(bytes[at], value, scale, tail.value.value); }
  }

  lemma Shift(byte: int, value: nat, scale: nat, rest: nat)
    requires 128 <= byte < 256
    ensures value + (byte - 128 + 128 * rest) * scale == (value + (byte % 128) * scale) + rest * (128 * scale)
  {
    assert byte % 128 == byte - 128;
    assert (byte - 128 + 128 * rest) * scale == (byte - 128) * scale + (128 * rest) * scale;
    assert (128 * rest) * scale == rest * (128 * scale);
  }

  // ---------------------------------------------------------------- round trip of a varint

  function EncodeVarint(n: nat): (r: seq<Byte>)
    ensures r != []
  {
    if n < 128 then [n] else [n % 128 + 128] + EncodeVarint(n / 128)
  }

  lemma {:induction false} VarintInverts(pre: seq<Byte>, n: nat, rest: seq<Byte>, i: nat)
    requires i < VARINT_BYTES && n < Power(VARINT_BYTES - i)
    ensures ReadFrom(pre + EncodeVarint(n) + rest, |pre|, i) == Some(Varint(n, |pre + EncodeVarint(n)|))
    decreases n
  {
    hide *;
    var all := pre + EncodeVarint(n) + rest;
    if n < 128 {
      EncodeLast(n);
      ReadLast(all, |pre|, i);
    } else {
      var head: seq<Byte> := [n % 128 + 128];
      MoreGroups(n, VARINT_BYTES - i);
      VarintInverts(pre + head, n / 128, rest, i + 1);
      EncodeMore(n, head);
      assert pre + head + EncodeVarint(n / 128) + rest == all;
      assert pre + head + EncodeVarint(n / 128) == pre + EncodeVarint(n);
      ReadMore(all, |pre|, i);
    }
  }

  lemma ReadLast(bytes: seq<Byte>, offset: nat, i: nat)
    requires i < VARINT_BYTES && offset < |bytes| && bytes[offset] < 128
    ensures ReadFrom(bytes, offset, i) == Some(Varint(bytes[offset], offset + 1))
  {}

  lemma ReadMore(bytes: seq<Byte>, offset: nat, i: nat)
    requires i < VARINT_BYTES && offset < |bytes| && bytes[offset] >= 128
    ensures ReadFrom(bytes, offset, i)
            == match ReadFrom(bytes, offset + 1, i + 1)
               case None => None
               case Some(v) => Some(Varint(bytes[offset] - 128 + 128 * v.value, v.next))
  {}

  lemma EncodeLast(n: nat)
    requires n < 128
    ensures EncodeVarint(n) == [n]
  {}

  lemma PowerMore(k: nat)
    requires k >= 1
    ensures Power(k) == 128 * Power(k - 1) && Power(k - 1) >= 1
  {
    if k > 1 { PowerMore(k - 1); }
  }

  lemma MoreGroups(n: nat, k: nat)
    requires k >= 1 && 128 <= n < Power(k)
    ensures k >= 2 && n / 128 < Power(k - 1)
  {
    assert Power(k) == 128 * Power(k - 1) && Power(0) == 1;
  }

  lemma EncodeMore(n: nat, head: seq<Byte>)
    requires n >= 128 && head == [n % 128 + 128]
    ensures EncodeVarint(n) == head + EncodeVarint(n / 128)
  {}

  /** Whatever is read fits ten groups of seven bits and took at most ten bytes. */
  lemma {:induction false} VarintBounded(bytes: seq<Byte>, offset: nat, i: nat)
    requires i <= VARINT_BYTES
    ensures var r := ReadFrom(bytes, offset, i);
            r.Some? ==> r.value.value < Power(VARINT_BYTES - i) && r.value.next <= offset + VARINT_BYTES - i
    decreases VARINT_BYTES - i
  {
    hide Power;
    if i < VARINT_BYTES && offset < |bytes| {
      PowerMore(VARINT_BYTES - i);
      VarintBounded(bytes, offset + 1, i + 1);
    }
  }

  // ---------------------------------------------------------------- fields

  datatype Field = Scalar(field: nat, value: nat) | Bytes(field: nat, data: seq<Byte>)

  /** A big integer as the nearest double, ties to even. */
  function ToNumber(n: nat): nat { Rounded(n, 1) }

  function Rounded(n: nat, unit: nat): nat
    requires unit > 0
    decreases n / unit
  {
    if n / unit <= MAX_SAFE_INTEGER then
      var q, rest := n / unit, n % unit;
      if 2 * rest > unit || (2 * rest == unit && q % 2 == 1) then (q + 1) * unit else q * unit
    else
      Halves(n, unit);
      Rounded(n, 2 * unit)
  }

  lemma Halves(n: nat, unit: nat)
    requires unit > 0 && n / unit > 0
    ensures n / (2 * unit) < n / unit
  {
    var q := n / (2 * unit);
    assert q * (2 * unit) == (2 * q) * unit;
    QuotientAtLeast(2 * q, n, unit);
  }

  lemma QuotientAtLeast(a: nat, n: nat, unit: nat)
    requires unit > 0 && a * unit <= n
    ensures a <= n / unit
  {
    var q := n / unit;
    assert n < (q + 1) * unit;
    assert a >= q + 1 ==> a * unit >= (q + 1) * unit;
  }

  lemma SafeNumber(n: nat)
    requires n <= MAX_SAFE_INTEGER
    ensures ToNumber(n) == n
  {}

  /** One field at `offset` and where it ends. */
  function ReadField(bytes: seq<Byte>, offset: nat): (r: Option<(Field, nat)>)
    ensures r.Some? ==> offset < r.value.1 <= |bytes|
  {
    match ReadFrom(bytes, offset, 0)
    case None => None
    case Some(tag) =>
      var field, wire := ToNumber(tag.value / 8), tag.value % 8;
      if field < 1 || (wire != 0 && wire != 2) then None
      else match ReadFrom(bytes, tag.next, 0)
        case None => None
        case Some(v) =>
          if wire == 0 then Some((Scalar(field, v.value), v.next))
          else if v.value > |bytes| || v.next + v.value > |bytes| then None
          else Some((Bytes(field, bytes[v.next..v.next + v.value]), v.next + v.value))
  }

  /** All fields from `offset` to the end; None when one of them is malformed. */
  function FieldsFrom(bytes: seq<Byte>, offset: nat): Option<seq<Field>>
    requires offset <= |bytes|
    decreases |bytes| - offset
  {
    if offset == |bytes| then Some([])
    else match ReadField(bytes, offset)
      case None => None
      case Some((f, next)) =>
        match FieldsFrom(bytes, next) case None => None case Some(fs) => Some([f] + fs)
  }

  /** The fields read so far, then the rest. */
  function After(fields: seq<Field>, rest: Option<seq<Field>>): (r: Option<seq<Field>>)
    ensures fields == [] ==> r == rest
  {
    match rest
    case None => None
    case Some(fs) =>
      assert [] + fs == fs;
      Some(fields + fs)
  }

  method DecodeFields(bytes: seq<Byte>) returns (r: Option<seq<Field>>)
    ensures r == FieldsFrom(bytes, 0)
  {
    hide FieldsFrom, After, ToNumber;
    var fields, offset: nat := [], 0;
    while offset < |bytes|
      invariant offset <= |bytes|
      invariant FieldsFrom(bytes, 0) == After(fields, FieldsFrom(bytes, offset))
      decreases |bytes| - offset
    {
      ghost var start := offset;
      Malformed(bytes, start);
      var tag := ReadVarint(bytes, offset);
      if tag.None? { return None; }
      offset := tag.value.next;
      var field, wire := ToNumber(tag.value.value / 8), tag.value.value % 8;
      if field < 1 || (wire != 0 && wire != 2) { return None; }
      var v := ReadVarint(bytes, offset);
      if v.None? { return None; }
      if wire == 0 {
        offset := v.value.next;
        Advances(bytes, start, fields, Scalar(field, v.value.value), offset);
        fields := fields + [Scalar(field, v.value.value)];
        continue;
      }
      if v.value.value > |bytes| { return None; }
      offset := v.value.next;
      var end := offset + v.value.value;
      if end > |bytes| { return None; }
      Advances(bytes, start, fields, Bytes(field, bytes[offset..end]), end);
      fields := fields + [Bytes(field, bytes[offset..end])];
      offset := end;
    }
    AtEnd(bytes, fields);
    r := Some(fields);
  }

  lemma AtEnd(bytes: seq<Byte>, fields: seq<Field>)
    ensures After(fields, FieldsFrom(bytes, |bytes|)) == Some(fields)
  {
    assert fields + [] == fields;
  }

  lemma Malformed(bytes: seq<Byte>, start: nat)
    requires start < |bytes|
    ensures ReadField(bytes, start).None? ==> FieldsFrom(bytes, start).None?
    ensures forall fields :: After(fields, None) == None
  {}

  lemma Advances(bytes: seq<Byte>, start: nat, fields: seq<Field>, f: Field, next: nat)
    requires start < |bytes| && ReadField(bytes, start) == Some((f, next))
    ensures next <= |bytes|
    ensures After(fields, FieldsFrom(bytes, start)) == After(fields + [f], FieldsFrom(bytes, next))
  {
    hide ReadField;
    match FieldsFrom(bytes, next) {
      case None =>
      case Some(fs) => assert fields + ([f] + fs) == fields + [f] + fs;
    }
  }

  // ---------------------------------------------------------------- round trip of a message

  function EncodeField(f: Field): (r: seq<Byte>)
    ensures r != []
  {
    match f
    case Scalar(field, value) => EncodeVarint(field * 8) + EncodeVarint(value)
    case Bytes(field, data) => EncodeVarint(field * 8 + 2) + EncodeVarint(|data|) + data
  }

  function EncodeFields(fs: seq<Field>): seq<Byte> {
    if fs == [] then [] else EncodeField(fs[0]) + EncodeFields(fs[1..])
  }

  /** A field number that is a safe integer, and a value or length of at most seventy bits. */
  predicate Encodable(f: Field) {
    1 <= f.field <= MAX_SAFE_INTEGER
    && (f.Scalar? ==> f.value < Power(VARINT_BYTES))
    && (f.Bytes? ==> |f.data| < Power(VARINT_BYTES))
  }

  lemma TagFits(field: nat, wire: nat)
    requires field <= MAX_SAFE_INTEGER && wire < 8
    ensures field * 8 + wire < Power(VARINT_BYTES)
    ensures (field * 8 + wire) / 8 == field && (field * 8 + wire) % 8 == wire && ToNumber(field) == field
  {
    assert Power(VARINT_BYTES) == 128 * 128 * 128 * 128 * 128 * 128 * 128 * 128 * 128 * 128 by {
      assert Power(2) == 128 * 128 && Power(4) == 128 * 128 * Power(2) && Power(6) == 128 * 128 * Power(4);
      assert Power(8) == 128 * 128 * Power(6) && Power(10) == 128 * 128 * Power(8);
    }
    SafeNumber(field);
  }

  /** Two varints in a row. */
  lemma TwoVarints(pre: seq<Byte>, a: nat, b: nat, tail: seq<Byte>)
    requires a < Power(VARINT_BYTES) && b < Power(VARINT_BYTES)
    ensures var all := pre + EncodeVarint(a) + EncodeVarint(b) + tail;
            var mid := |pre + EncodeVarint(a)|;
            && ReadFrom(all, |pre|, 0) == Some(Varint(a, mid))
            && ReadFrom(all, mid, 0) == Some(Varint(b, |pre + EncodeVarint(a) + EncodeVarint(b)|))
  {
    hide ReadFrom, EncodeVarint, Power;
    VarintInverts(pre, a, EncodeVarint(b) + tail, 0);
    assert pre + EncodeVarint(a) + (EncodeVarint(b) + tail) == pre + EncodeVarint(a) + EncodeVarint(b) + tail;
    VarintInverts(pre + EncodeVarint(a), b, tail, 0);
  }

  lemma FieldInverts(pre: seq<Byte>, f: Field, rest: seq<Byte>)
    requires Encodable(f)
    ensures ReadField(pre + EncodeField(f) + rest, |pre|) == Some((f, |pre + EncodeField(f)|))
  {
    hide ReadFrom, EncodeVarint, Power, ToNumber;
    var all := pre + EncodeField(f) + rest;
    match f {
      case Scalar(field, value) =>
        TagFits(field, 0);
        TwoVarints(pre, field * 8, value, rest);
        assert all == pre + EncodeVarint(field * 8) + EncodeVarint(value) + rest;
      case Bytes(field, data) =>
        TagFits(field, 2);
        TwoVarints(pre, field * 8 + 2, |data|, data + rest);
        var front := pre + EncodeVarint(field * 8 + 2) + EncodeVarint(|data|);
        assert all == front + (data + rest);
        assert all[|front|..|front| + |data|] == data;
    }
  }

  lemma {:induction false} FieldsInvert(pre: seq<Byte>, fs: seq<Field>)
    requires forall f :: f in fs ==> Encodable(f)
    ensures FieldsFrom(pre + EncodeFields(fs), |pre|) == Some(fs)
    decreases |fs|
  {
    var all := pre + EncodeFields(fs);
    if fs != [] {
      hide ReadField, EncodeField, Encodable;
      var rest := EncodeFields(fs[1..]);
      assert all == pre + EncodeField(fs[0]) + rest;
      FieldInverts(pre, fs[0], rest);
      FieldsInvert(pre + EncodeField(fs[0]), fs[1..]);
      assert fs == [fs[0]] + fs[1..];
    }
  }

  /** Decoding inverts encoding, for every list of fields. */
  lemma DecodeInverts(fs: seq<Field>)
    requires forall f :: f in fs ==> Encodable(f)
    ensures FieldsFrom(EncodeFields(fs), 0) == Some(fs)
  {
    assert [] + EncodeFields(fs) == EncodeFields(fs);
    FieldsInvert([], fs);
  }

  // ---------------------------------------------------------------- the reservation response

  /** `limit` is present when the data or the duration limit is. */
  datatype Response = Response(status: nat, expire: Option<nat>, data: Option<nat>, duration: Option<nat>)

  function FirstScalar(fs: seq<Field>, number: nat): Option<nat> {
    if fs == [] then None
    else if fs[0].Scalar? && fs[0].field == number then Some(fs[0].value)
    else FirstScalar(fs[1..], number)
  }

  function FirstBytes(fs: seq<Field>, number: nat): Option<seq<Byte>> {
    if fs == [] then None
    else if fs[0].Bytes? && fs[0].field == number then Some(fs[0].data)
    else FirstBytes(fs[1..], number)
  }

  function CountScalars(fs: seq<Field>, number: nat): nat {
    if fs == [] then 0
    else (if fs[0].Scalar? && fs[0].field == number then 1 else 0) + CountScalars(fs[1..], number)
  }

  /** The fields of an embedded message; none when it is absent. */
  function Embedded(data: Option<seq<Byte>>): Option<seq<Field>> {
    match data case None => Some([]) case Some(bytes) => FieldsFrom(bytes, 0)
  }

  /** None when the program throws. */
  function DecodeResponse(bytes: seq<Byte>): Option<Response> {
    match FieldsFrom(bytes, 0)
    case None => None
    case Some(fields) =>
      var status := FirstScalar(fields, 5);
      if CountScalars(fields, 5) != 1 || status.None? || status.value > MAX_SAFE_INTEGER then None
      else match (Embedded(FirstBytes(fields, 3)), Embedded(FirstBytes(fields, 4)))
        case (Some(reservation), Some(limit)) =>
          var duration := FirstScalar(limit, 1);
          if duration.Some? && duration.value > MAX_SAFE_INTEGER then None
          else Some(Response(status.value, FirstScalar(reservation, 1), FirstScalar(limit, 2), duration))
        case _ => None
  }

  // ---------------------------------------------------------------- what a HopMessage says

  predicate IsScalar(f: Field, number: nat) { f.Scalar? && f.field == number }

  predicate IsBytes(f: Field, number: nat) { f.Bytes? && f.field == number }

  /** The first scalar with this number, wherever it stands among the others. */
  ghost predicate LeadingScalar(fs: seq<Field>, number: nat, value: Option<nat>) {
    match value
    case None => forall i :: 0 <= i < |fs| ==> !IsScalar(fs[i], number)
    case Some(v) =>
      exists i :: && 0 <= i < |fs| && fs[i] == Scalar(number, v)
                  && forall j :: 0 <= j < i ==> !IsScalar(fs[j], number)
  }

  ghost predicate LeadingBytes(fs: seq<Field>, number: nat, data: Option<seq<Byte>>) {
    match data
    case None => forall i :: 0 <= i < |fs| ==> !IsBytes(fs[i], number)
    case Some(d) =>
      exists i :: && 0 <= i < |fs| && fs[i] == Bytes(number, d)
                  && forall j :: 0 <= j < i ==> !IsBytes(fs[j], number)
  }

  /** Exactly one scalar with this number. */
  ghost predicate OnlyScalar(fs: seq<Field>, number: nat, value: nat) {
    exists i :: 0 <= i < |fs| && fs[i] == Scalar(number, value)
                && forall j :: 0 <= j < |fs| && j != i ==> !IsScalar(fs[j], number)
  }

  lemma {:induction false} ScalarFound(fs: seq<Field>, number: nat)
    ensures LeadingScalar(fs, number, FirstScalar(fs, number))
    decreases |fs|
  {
    if fs != [] && !IsScalar(fs[0], number) {
      ScalarFound(fs[1..], number);
      match FirstScalar(fs[1..], number) {
        case None => assert forall i :: 0 < i < |fs| ==> fs[i] == fs[1..][i - 1];
        case Some(v) =>
          var i :| 0 <= i < |fs[1..]| && fs[1..][i] == Scalar(number, v)
              && forall j :: 0 <= j < i ==> !IsScalar(fs[1..][j], number);
          assert fs[i + 1] == Scalar(number, v);
          assert forall j :: 0 < j < i + 1 ==> fs[j] == fs[1..][j - 1];
      }
    }
  }

  lemma {:induction false} BytesFound(fs: seq<Field>, number: nat)
    ensures LeadingBytes(fs, number, FirstBytes(fs, number))
    decreases |fs|
  {
    if fs != [] && !IsBytes(fs[0], number) {
      BytesFound(fs[1..], number);
      match FirstBytes(fs[1..], number) {
        case None => assert forall i :: 0 < i < |fs| ==> fs[i] == fs[1..][i - 1];
        case Some(d) =>
          var i :| 0 <= i < |fs[1..]| && fs[1..][i] == Bytes(number, d)
              && forall j :: 0 <= j < i ==> !IsBytes(fs[1..][j], number);
          assert fs[i + 1] == Bytes(number, d);
          assert forall j :: 0 < j < i + 1 ==> fs[j] == fs[1..][j - 1];
      }
    }
  }

  /** A list has one first scalar and one first embedded message of a number. */
  lemma LeadingUnique(fs: seq<Field>, number: nat)
    ensures forall a :: LeadingScalar(fs, number, a) <==> a == FirstScalar(fs, number)
    ensures forall a :: LeadingBytes(fs, number, a) <==> a == FirstBytes(fs, number)
  {
    ScalarFound(fs, number);
    BytesFound(fs, number);
    forall a | LeadingScalar(fs, number, a) ensures a == FirstScalar(fs, number) {
      SameScalar(fs, number, a, FirstScalar(fs, number));
    }
    forall a | LeadingBytes(fs, number, a) ensures a == FirstBytes(fs, number) {
      SameBytes(fs, number, a, FirstBytes(fs, number));
    }
  }

  lemma SameScalar(fs: seq<Field>, number: nat, a: Option<nat>, b: Option<nat>)
    requires LeadingScalar(fs, number, a) && LeadingScalar(fs, number, b)
    ensures a == b
  {
    if a.Some? && b.Some? {
      var i :| 0 <= i < |fs| && fs[i] == Scalar(number, a.value) && forall j :: 0 <= j < i ==> !IsScalar(fs[j], number);
      var k :| 0 <= k < |fs| && fs[k] == Scalar(number, b.value) && forall j :: 0 <= j < k ==> !IsScalar(fs[j], number);
      assert !(i < k) && !(k < i);
    }
  }

  lemma SameBytes(fs: seq<Field>, number: nat, a: Option<seq<Byte>>, b: Option<seq<Byte>>)
    requires LeadingBytes(fs, number, a) && LeadingBytes(fs, number, b)
    ensures a == b
  {
    if a.Some? && b.Some? {
      var i :| 0 <= i < |fs| && fs[i] == Bytes(number, a.value) && forall j :: 0 <= j < i ==> !IsBytes(fs[j], number);
      var k :| 0 <= k < |fs| && fs[k] == Bytes(number, b.value) && forall j :: 0 <= j < k ==> !IsBytes(fs[j], number);
      assert !(i < k) && !(k < i);
    }
  }

  lemma {:induction false} NoScalars(fs: seq<Field>, number: nat)
    ensures CountScalars(fs, number) == 0 <==> forall i :: 0 <= i < |fs| ==> !IsScalar(fs[i], number)
    decreases |fs|
  {
    if fs != [] {
      NoScalars(fs[1..], number);
      assert forall i :: 0 < i < |fs| ==> fs[i] == fs[1..][i - 1];
      assert forall i :: 0 <= i < |fs[1..]| ==> fs[1..][i] == fs[i + 1];
    }
  }

  /** One is counted and the first has this value exactly when it is the only one. */
  lemma {:induction false} OneScalar(fs: seq<Field>, number: nat, value: nat)
    ensures CountScalars(fs, number) == 1 && FirstScalar(fs, number) == Some(value) <==> OnlyScalar(fs, number, value)
    decreases |fs|
  {
    if fs != [] {
      NoScalars(fs[1..], number);
      OneScalar(fs[1..], number, value);
      OnlyShift(fs, number, value);
    }
  }

  lemma OnlyShift(fs: seq<Field>, number: nat, value: nat)
    requires fs != []
    ensures OnlyScalar(fs, number, value)
            <==> if IsScalar(fs[0], number)
                 then fs[0] == Scalar(number, value) && forall i :: 0 <= i < |fs[1..]| ==> !IsScalar(fs[1..][i], number)
                 else OnlyScalar(fs[1..], number, value)
  {
    var rest := fs[1..];
    assert forall i :: 0 < i < |fs| ==> fs[i] == rest[i - 1];
    assert forall i :: 0 <= i < |rest| ==> rest[i] == fs[i + 1];
    if OnlyScalar(fs, number, value) {
      var i :| 0 <= i < |fs| && fs[i] == Scalar(number, value)
          && forall j :: 0 <= j < |fs| && j != i ==> !IsScalar(fs[j], number);
      if !IsScalar(fs[0], number) { assert rest[i - 1] == fs[i]; }
    }
    if !IsScalar(fs[0], number) && OnlyScalar(rest, number, value) {
      var i :| 0 <= i < |rest| && rest[i] == Scalar(number, value)
          && forall j :: 0 <= j < |rest| && j != i ==> !IsScalar(rest[j], number);
      assert fs[i + 1] == Scalar(number, value);
    }
  }

  /** `part` is the message embedded under this number, the first one; the empty message when there is none. */
  ghost predicate Holds(fs: seq<Field>, number: nat, part: seq<Field>) {
    exists data :: LeadingBytes(fs, number, data) && Embedded(data) == Some(part)
  }

  lemma HoldsIs(fs: seq<Field>, number: nat)
    ensures forall part :: Holds(fs, number, part) <==> Embedded(FirstBytes(fs, number)) == Some(part)
  {
    hide LeadingBytes, Embedded, FirstBytes;
    LeadingUnique(fs, number);
  }

  predicate Safe(value: Option<nat>) { value.Some? ==> value.value <= MAX_SAFE_INTEGER }

  /** What a response says of the fields of its message and of the two messages embedded in it. */
  ghost predicate Says(fs: seq<Field>, reservation: seq<Field>, limit: seq<Field>, r: Response) {
    && OnlyScalar(fs, 5, r.status) && r.status <= MAX_SAFE_INTEGER && Safe(r.duration)
    && LeadingScalar(reservation, 1, r.expire) && LeadingScalar(limit, 2, r.data) && LeadingScalar(limit, 1, r.duration)
  }

  lemma SaysIs(fs: seq<Field>, reservation: seq<Field>, limit: seq<Field>, r: Response)
    ensures Says(fs, reservation, limit, r)
            <==> && CountScalars(fs, 5) == 1 && FirstScalar(fs, 5) == Some(r.status) && r.status <= MAX_SAFE_INTEGER
                 && r.expire == FirstScalar(reservation, 1) && r.data == FirstScalar(limit, 2)
                 && r.duration == FirstScalar(limit, 1) && Safe(r.duration)
  {
    hide OnlyScalar, LeadingScalar, LeadingBytes;
    OneScalar(fs, 5, r.status);
    LeadingUnique(reservation, 1);
    LeadingUnique(limit, 1);
    LeadingUnique(limit, 2);
  }

  /**
   Whatever the order of its fields, a HopMessage decodes to a response exactly when it has one safe
   status, its first reservation and first limit decode, and the duration is safe; and then the
   response is what they say.
   */
  lemma HopDecodes(fs: seq<Field>, r: Response)
    requires forall f :: f in fs ==> Encodable(f)
    ensures DecodeResponse(EncodeFields(fs)) == Some(r)
            <==> exists reservation, limit ::
                   Holds(fs, 3, reservation) && Holds(fs, 4, limit) && Says(fs, reservation, limit, r)
  {
    DecodeInverts(fs);
    HoldsIs(fs, 3);
    HoldsIs(fs, 4);
    hide EncodeFields, FieldsFrom, Encodable, Embedded, FirstScalar, FirstBytes, CountScalars, Holds, Says;
    var a, b := Embedded(FirstBytes(fs, 3)), Embedded(FirstBytes(fs, 4));
    if a.Some? && b.Some? { SaysIs(fs, a.value, b.value, r); }
  }

  /** An optional message under a number, encoded. */
  ghost predicate Carries(fs: seq<Field>, number: nat, part: Option<seq<Field>>) {
    match part
    case None => LeadingBytes(fs, number, None)
    case Some(p) => (forall f :: f in p ==> Encodable(f)) && LeadingBytes(fs, number, Some(EncodeFields(p)))
  }

  function Content(part: Option<seq<Field>>): seq<Field> {
    if part.Some? then part.value else []
  }

  lemma CarriesHolds(fs: seq<Field>, number: nat, part: Option<seq<Field>>)
    requires Carries(fs, number, part)
    ensures Holds(fs, number, Content(part))
  {
    hide LeadingBytes, EncodeFields, FieldsFrom, Encodable;
    match part {
      case None => assert Embedded(None) == Some([]);
      case Some(p) =>
        DecodeInverts(p);
        assert Embedded(Some(EncodeFields(p))) == Some(p);
    }
  }

  /** Decoding recovers what a message with encoded parts says, in any order of its fields. */
  lemma HopInverts(fs: seq<Field>, reservation: Option<seq<Field>>, limit: Option<seq<Field>>, r: Response)
    requires forall f :: f in fs ==> Encodable(f)
    requires Carries(fs, 3, reservation) && Carries(fs, 4, limit)
    ensures DecodeResponse(EncodeFields(fs)) == Some(r) <==> Says(fs, Content(reservation), Content(limit), r)
  {
    hide *;
    CarriesHolds(fs, 3, reservation);
    CarriesHolds(fs, 4, limit);
    HopDecodes(fs, r);
    HoldsIs(fs, 3);
    HoldsIs(fs, 4);
  }
}
