/** The read cursor and the append buffer that property blocks go through. */
module PropStreams {
  import opened Options
  import opened Bytes

  class PropStream {
    var buffer: seq<Byte>
    var p: nat
    var end: nat

    ghost predicate Valid()
      reads this
    {
      p <= end <= |buffer|
    }

    // What is left to read.
    ghost function Rest(): seq<Byte>
      requires Valid()
      reads this
    {
      buffer[p..end]
    }

    constructor ()
      ensures Valid() && Rest() == []
    {
      buffer, p, end := [], 0, 0;
    }

    method Init(data: seq<Byte>, size: nat)
      requires size <= |data|
      modifies this
      ensures Valid() && Rest() == data[..size]
    {
      buffer, p, end := data, 0, size;
    }

    method Size() returns (n: nat)
      requires Valid()
      ensures n == |Rest()|
    {
      n := end - p;
    }

    method Read(width: nat) returns (v: Option<nat>)
      requires Valid()
      modifies this
      ensures Valid()
      ensures match TakeNumber(old(Rest()), width)
              case None => v == None && Rest() == old(Rest())
              case Some((x, rest)) => v == Some(x) && Rest() == rest
    {
      var n := Size();
      if n < width {
        return None;
      }
      ghost var was := Rest();
      v := Some(Value(buffer[p..p + width]));
      assert buffer[p..p + width] == was[..width];
      p := p + width;
      assert Rest() == was[width..];
    }

    method ReadString() returns (v: Option<seq<Byte>>)
      requires Valid()
      modifies this
      ensures Valid()
      ensures match TakeString(old(Rest()))
              case None => v == None && Rest() == old(if |Rest()| < 2 then Rest() else Rest()[2..])
              case Some((text, rest)) => v == Some(text) && Rest() == rest
    {
      var strLen := Read(2);
      if strLen == None {
        return None;
      }
      var n := Size();
      if n < strLen.value {
        return None;
      }
      ghost var was := Rest();
      v := Some(buffer[p..p + strLen.value]);
      assert v.value == was[..strLen.value];
      p := p + strLen.value;
      assert Rest() == was[strLen.value..];
    }

    method Skip(n: nat) returns (ok: bool)
      requires Valid()
      modifies this
      ensures Valid()
      ensures ok == (n <= |old(Rest())|)
      ensures Rest() == if ok then old(Rest())[n..] else old(Rest())
    {
      var size := Size();
      if size < n {
        return false;
      }
      ghost var was := Rest();
      p := p + n;
      assert Rest() == was[n..];
      ok := true;
    }
  }

  class PropWriteStream {
    var buffer: seq<Byte>

    constructor ()
      ensures buffer == []
    {
      buffer := [];
    }

    method Clear()
      modifies this
      ensures buffer == []
    {
      buffer := [];
    }

    method Write(width: nat, v: nat)
      modifies this
      ensures buffer == old(buffer) + Little(width, v)
    {
      buffer := buffer + Little(width, v);
    }

    method WriteString(str: seq<Byte>)
      modifies this
      ensures buffer == old(buffer) + StringBytes(str)
    {
      if |str| > 0xFFFF {
        Write(2, 0);
        return;
      }
      Write(2, |str|);
      buffer := buffer + str;
    }
  }

  // What a read of one number sees and leaves.
  function TakeNumber(s: seq<Byte>, width: nat): Option<(nat, seq<Byte>)> {
    if |s| < width then None else Some((Value(s[..width]), s[width..]))
  }

  function TakeString(s: seq<Byte>): Option<(seq<Byte>, seq<Byte>)> {
    match TakeNumber(s, 2)
    case None => None
    case Some((n, rest)) => if |rest| < n then None else Some((rest[..n], rest[n..]))
  }

  // A string is its 16-bit length and its bytes; a longer one becomes the empty string.
  function StringBytes(str: seq<Byte>): seq<Byte> {
    if |str| > 0xFFFF then Little(2, 0) else Little(2, |str|) + str
  }

  // A number that fits its width is read back, and nothing after it is touched.
  lemma NumberRoundTrip(width: nat, v: nat, rest: seq<Byte>)
    requires v < Range(width)
    ensures TakeNumber(Little(width, v) + rest, width) == Some((v, rest))
  {
  }

  // A string is read back exactly when its length fits 16 bits.
  lemma StringRoundTripIff(str: seq<Byte>, rest: seq<Byte>)
    ensures TakeString(StringBytes(str) + rest) == Some((str, rest)) <==> |str| <= 0xFFFF
    ensures |str| > 0xFFFF ==> TakeString(StringBytes(str) + rest) == Some(([], rest))
  {
    RangeOf4();
    if |str| <= 0xFFFF {
      assert StringBytes(str) + rest == Little(2, |str|) + (str + rest);
      NumberRoundTrip(2, |str|, str + rest);
      assert (str + rest)[..|str|] == str && (str + rest)[|str|..] == rest;
    } else {
      NumberRoundTrip(2, 0, rest);
      assert rest[..0] == [] && rest[0..] == rest;
    }
  }
}
