/** Decoding the entry list of `#pragma input_layout(...)` into vertex
    attributes: the list is read three entries at a time as a format token,
    a binding slot and a relative offset. */
module InputLayout {
  import opened Wrappers
  import opened Text
  import opened Pipeline
  import opened Directives

  /** One `(format, slot, offset)` triple: the format must be in the table and
      both numbers must parse as `u32`; the offset is then cast to `i32`. */
  function DecodeAttribute(fmt: string, slot: string, offset: string): (r: Option<VertexAttribute>)
  {
    match (ParseNumber(slot, U32_MAX), ParseNumber(offset, U32_MAX), FormatOf(fmt))
    case (Some(s), Some(o), Some(f)) => Some(VertexAttribute(f.ty, f.size, f.normalized, s, WrapI32(o)))
    case _ => None
  }

  /** The k-th triple of an entry list. */
  function DecodeTriple(entries: seq<string>, k: nat): (r: Option<VertexAttribute>)
    requires 3 * k + 2 < |entries|
  {
    DecodeAttribute(entries[3 * k], entries[3 * k + 1], entries[3 * k + 2])
  }

  /** The whole list: every triple must decode, and a trailing triple with a
      missing slot or offset rejects the directive. */
  function DecodeLayout(entries: seq<string>): (r: Option<seq<VertexAttribute>>)
    decreases |entries|
  {
    if entries == [] then Some([])
    else if |entries| < 3 then None
    else
      match DecodeAttribute(entries[0], entries[1], entries[2])
      case None => None
      case Some(a) =>
        match DecodeLayout(entries[3..])
        case None => None
        case Some(rest) => Some([a] + rest)
  }

  /** o with p put in front of its value. */
  function Prefixed(p: seq<VertexAttribute>, o: Option<seq<VertexAttribute>>): (r: Option<seq<VertexAttribute>>)
  {
    match o
    case None => None
    case Some(x) => Some(p + x)
  }

  /** The `while let` loop of the directive: walks the entries three at a
      time, pushing one attribute per triple, and gives up on the first
      triple that does not decode. */
  method ParseInputLayout(entries: seq<string>) returns (r: Option<seq<VertexAttribute>>)
    ensures r == DecodeLayout(entries)
  {
    var layout: seq<VertexAttribute> := [];
    var i := 0;
    assert entries[i..] == entries;
    PrefixedEmpty(DecodeLayout(entries));
    while i < |entries|
      invariant 0 <= i <= |entries|
      invariant DecodeLayout(entries) == Prefixed(layout, DecodeLayout(entries[i..]))
      decreases |entries| - i
    {
      var fmt := entries[i];
      if i + 2 >= |entries| {
        return None;
      }
      var slot := ParseNumber(entries[i + 1], U32_MAX);
      var offset := ParseNumber(entries[i + 2], U32_MAX);
      if slot.None? || offset.None? {
        return None;
      }
      var format := FormatOf(fmt);
      if format.None? {
        return None;
      }
      var a := VertexAttribute(format.value.ty, format.value.size, format.value.normalized,
                               slot.value, WrapI32(offset.value));
      assert entries[i..][3..] == entries[i + 3..];
      PrefixedAppend(layout, a, DecodeLayout(entries[i + 3..]));
      layout := layout + [a];
      i := i + 3;
    }
    assert entries[i..] == [];
    assert layout + [] == layout;
    return Some(layout);
  }

  lemma PrefixedEmpty(o: Option<seq<VertexAttribute>>)
    ensures Prefixed([], o) == o
  {
    if o.Some? { assert [] + o.value == o.value; }
  }

  lemma PrefixedAppend(p: seq<VertexAttribute>, a: VertexAttribute, o: Option<seq<VertexAttribute>>)
    ensures Prefixed(p, Prefixed([a], o)) == Prefixed(p + [a], o)
  {
    if o.Some? { assert p + ([a] + o.value) == p + [a] + o.value; }
  }

  lemma DecodeTripleTail(entries: seq<string>, k: nat)
    requires 3 * k + 5 < |entries|
    ensures DecodeTriple(entries[3..], k) == DecodeTriple(entries, k + 1)
  {
  }

  /** An accepted list has three entries per attribute, and attribute k is
      what triple k decodes to. */
  lemma {:induction false} DecodeLayoutAccepted(entries: seq<string>)
    requires DecodeLayout(entries).Some?
    ensures |entries| == 3 * |DecodeLayout(entries).value|
    ensures forall k :: 0 <= k < |entries| / 3 ==> DecodeTriple(entries, k) == Some(DecodeLayout(entries).value[k])
    decreases |entries|
  {
    if entries != [] {
      var tail := entries[3..];
      var r := DecodeLayout(entries).value;
      DecodeLayoutCons(entries);
      DecodeLayoutAccepted(tail);
      var rt := DecodeLayout(tail).value;
      forall k | 0 <= k < |entries| / 3
        ensures DecodeTriple(entries, k) == Some(r[k])
      {
        if k > 0 {
          DecodeTripleTail(entries, k - 1);
          assert DecodeTriple(tail, k - 1) == Some(rt[k - 1]);
          assert r[k] == rt[k - 1];
        }
      }
    }
  }

  lemma DecodeLayoutCons(entries: seq<string>)
    requires entries != [] && DecodeLayout(entries).Some?
    ensures |entries| >= 3 && DecodeLayout(entries[3..]).Some?
    ensures DecodeLayout(entries).value == [DecodeTriple(entries, 0).value] + DecodeLayout(entries[3..]).value
    ensures DecodeTriple(entries, 0).Some?
  {
  }

  /** A list of whole triples that all decode is accepted. */
  lemma {:induction false} DecodeLayoutComplete(entries: seq<string>)
    requires |entries| % 3 == 0
    requires forall k :: 0 <= k < |entries| / 3 ==> DecodeTriple(entries, k).Some?
    ensures DecodeLayout(entries).Some?
    decreases |entries|
  {
    if entries != [] {
      var tail := entries[3..];
      forall k | 0 <= k < |tail| / 3
        ensures DecodeTriple(tail, k).Some?
      {
        DecodeTripleTail(entries, k);
      }
      DecodeLayoutComplete(tail);
      assert DecodeTriple(entries, 0).Some?;
    }
  }

  /** The entry list that writes out a layout. */
  function EncodeLayout(attrs: seq<VertexAttribute>): (entries: seq<string>)
    requires forall i :: 0 <= i < |attrs| ==> Encodable(attrs[i])
    ensures |entries| == 3 * |attrs|
  {
    if attrs == [] then []
    else
      var a := attrs[0];
      assert Encodable(a);
      [FormatName(AttribFormat(a.ty, a.size, a.normalized)).value, Decimal(a.slot), Decimal(a.relativeOffset)]
        + EncodeLayout(attrs[1..])
  }

  /** An attribute a directive can express: a format from the table, a
      `u32` slot and an offset that survives the `i32` cast unchanged. */
  predicate Encodable(a: VertexAttribute)
  {
    FormatName(AttribFormat(a.ty, a.size, a.normalized)).Some? &&
    a.slot <= U32_MAX && 0 <= a.relativeOffset <= I32_MAX
  }

  /** Writing a layout out and decoding it gives the layout back. */
  lemma {:induction false} DecodeLayoutRoundTrip(attrs: seq<VertexAttribute>)
    requires forall i :: 0 <= i < |attrs| ==> Encodable(attrs[i])
    ensures DecodeLayout(EncodeLayout(attrs)) == Some(attrs)
  {
    if attrs != [] {
      var a := attrs[0];
      var f := AttribFormat(a.ty, a.size, a.normalized);
      var entries := EncodeLayout(attrs);
      FormatTable(FormatName(f).value, f);
      ParseDecimal(a.slot, U32_MAX);
      ParseDecimal(a.relativeOffset, U32_MAX);
      assert entries[3..] == EncodeLayout(attrs[1..]);
      DecodeLayoutRoundTrip(attrs[1..]);
      assert [a] + attrs[1..] == attrs;
    }
  }
}
