/** Model of core/stringbuilder.py: a buffer that objects are appended to,
  * each written as an optional indent, its `str()` and an optional
  * delimiter. */
module StringBuilders {
  import opened Wrappers
  import opened PyValues

  /** `' ' * n`: n spaces, none for a non-positive n. */
  function Spaces(n: int): (r: string)
    ensures |r| == if n > 0 then n else 0
    ensures forall k :: 0 <= k < |r| ==> r[k] == ' '
    decreases n
  {
    if n <= 0 then "" else " " + Spaces(n - 1)
  }

  /** The indent an append writes: a non-zero per-call indent (even a
    * negative one, which writes nothing) overrides the builder's. */
  function IndentText(indent: Option<int>, builderIndent: string): (r: string)
    ensures indent.Some? && indent.value != 0 ==> r == Spaces(indent.value)
    ensures indent.None? || indent.value == 0 ==> r == builderIndent
  {
    if indent.Some? && indent.value != 0 then Spaces(indent.value)
    else builderIndent
  }

  /** The delimiter an append writes: any per-call delimiter, the empty one
    * included, overrides the builder's. */
  function DelimText(delim: Option<string>, builderDelim: Option<string>): (r: string)
    ensures delim.Some? ==> r == delim.value
    ensures delim.None? && builderDelim.Some? ==> r == builderDelim.value
    ensures delim.None? && builderDelim.None? ==> r == ""
  {
    if delim.Some? then delim.value
    else if builderDelim.Some? && builderDelim.value != "" then builderDelim.value
    else ""
  }

  /** What one `append(obj, indent, delim)` writes: None is refused with
    * TypeError; anything else is the indent, `str(obj)` and the delimiter,
    * in that order. */
  function Piece(obj: PyValue, indent: Option<int>, delim: Option<string>,
                 builderIndent: string, builderDelim: Option<string>): (r: Result<string>)
    ensures obj == PNone <==> r == Err(TypeError)
    ensures r.Ok? ==> r.value == IndentText(indent, builderIndent) + Str(obj) + DelimText(delim, builderDelim)
  {
    if obj == PNone then Err(TypeError)
    else Ok(IndentText(indent, builderIndent) + Str(obj) + DelimText(delim, builderDelim))
  }

  /** The text a builder holds after appending every object of `objs` with
    * no per-call overrides, or TypeError when one of them is None. */
  function Concat(objs: seq<PyValue>, builderIndent: string, builderDelim: Option<string>): (r: Result<string>)
    ensures r.Err? <==> PNone in objs
    ensures r.Err? ==> r.error == TypeError
  {
    if objs == [] then Ok("")
    else
      var p := Piece(objs[0], Option.None, Option.None, builderIndent, builderDelim);
      if p.Err? then Err(p.error)
      else
        var rest := Concat(objs[1..], builderIndent, builderDelim);
        if rest.Err? then rest else Ok(p.value + rest.value)
  }

  class StringBuilder {
    /** The text written so far. */
    var buffer: string
    /** The builder's indent: empty when none was set. */
    var indent: string
    var delim: Option<string>

    /** The initial object is appended, when truthy, with the builder's
      * delimiter but before the indent is set, so without indent. */
    constructor (initObj: PyValue, indent: int, delim: Option<string>)
      ensures this.delim == delim
      ensures this.indent == (if indent > 0 then Spaces(indent) else "")
      ensures buffer == if Truthy(initObj) then Str(initObj) + DelimText(Option.None, delim) else ""
    {
      buffer := "";
      this.delim := delim;
      this.indent := "";
      new;
      if Truthy(initObj) {
        InitialPiece(initObj, delim);
        var st := Append(initObj, Option.None, Option.None);
      }
      if indent > 0 {
        this.indent := Spaces(indent);
      }
    }

    /** What the constructor's append of a truthy initial object writes,
      * with no indent set yet. */
    static lemma InitialPiece(initObj: PyValue, delim: Option<string>)
      requires Truthy(initObj)
      ensures Piece(initObj, Option.None, Option.None, "", delim) == Ok(Str(initObj) + DelimText(Option.None, delim))
    {
      assert initObj != PNone && IndentText(Option.None, "") == "";
      assert "" + Str(initObj) == Str(initObj);
    }

    /** `append(obj, indent, delim)`. */
    method Append(obj: PyValue, indent: Option<int>, delim: Option<string>) returns (st: Status)
      modifies this
      ensures this.indent == old(this.indent) && this.delim == old(this.delim)
      ensures var p := Piece(obj, indent, delim, this.indent, this.delim);
              if p.Err? then st == Raised(p.error) && buffer == old(buffer)
              else st == Done && buffer == old(buffer) + p.value
    {
      if obj == PNone {
        return Raised(TypeError);
      }
      ghost var start := buffer;
      if indent.Some? && indent.value != 0 {
        buffer := buffer + Spaces(indent.value);
      } else if this.indent != "" {
        buffer := buffer + this.indent;
      }
      ghost var lead := IndentText(indent, this.indent);
      assert buffer == start + lead;
      var text := Str(obj);
      buffer := buffer + text;
      ghost var afterObj := buffer;
      if delim.Some? {
        buffer := buffer + delim.value;
      } else if this.delim.Some? && this.delim.value != "" {
        buffer := buffer + this.delim.value;
      }
      ghost var tail := DelimText(delim, this.delim);
      assert buffer == afterObj + tail;
      WritesInOrder(start, lead, text, tail);
      st := Done;
    }

    /** `length()` as written: `len()` of a StringIO raises TypeError. */
    method LengthAsWritten() returns (r: Result<nat>)
      ensures r == Err(TypeError)
    {
      r := Err(TypeError);
    }

    /** `length()` as the length of the text written. */
    function Length(): (r: nat)
      reads this
      ensures r == |ToString()|
    {
      |buffer|
    }

    /** `to_string()` and `__str__`. */
    function ToString(): (r: string)
      reads this
      ensures r == buffer
    {
      buffer
    }
  }

  /** Three successive writes leave the buffer extended by their
    * concatenation. */
  lemma WritesInOrder(start: string, a: string, b: string, c: string)
    ensures start + a + b + c == start + (a + b + c)
  {
    assert start + a + b == start + (a + b);
    assert (start + (a + b)) + c == start + ((a + b) + c);
  }

  /** The buffer is every write in order: a builder without initial object
    * that is handed `objs` one by one holds their concatenation, and the
    * first None stops it with TypeError. */
  method Build(objs: seq<PyValue>, indent: int, delim: Option<string>) returns (r: Result<string>)
    ensures r == Concat(objs, if indent > 0 then Spaces(indent) else "", delim)
  {
    var b := new StringBuilder(PNone, indent, delim);
    ghost var bi := b.indent;
    assert b.buffer == "";
    assert ConcatAfter(b.buffer, objs, bi, delim) == Concat(objs, bi, delim) by {
      var rest := Concat(objs, bi, delim);
      if rest.Ok? {
        assert "" + rest.value == rest.value;
      }
    }
    var i := 0;
    while i < |objs|
      invariant 0 <= i <= |objs|
      invariant b.indent == bi && b.delim == delim
      invariant Concat(objs, bi, delim) == ConcatAfter(b.buffer, objs[i..], bi, delim)
    {
      ghost var before := b.buffer;
      var st := b.Append(objs[i], Option.None, Option.None);
      if st.Raised? {
        return Err(st.error);
      }
      assert objs[i..][1..] == objs[i + 1..];
      ConcatAfterStep(before, objs[i..], bi, delim);
      i := i + 1;
    }
    assert objs[i..] == [] && b.buffer + "" == b.buffer;
    r := Ok(b.ToString());
  }

  /** The result of continuing from text `prefix` with the appends of
    * `objs`. */
  function ConcatAfter(prefix: string, objs: seq<PyValue>, builderIndent: string, builderDelim: Option<string>): (r: Result<string>)
    ensures r.Err? <==> PNone in objs
  {
    var rest := Concat(objs, builderIndent, builderDelim);
    if rest.Err? then rest else Ok(prefix + rest.value)
  }

  /** One more append moves one piece from the pending objects onto the
    * text. */
  lemma ConcatAfterStep(prefix: string, objs: seq<PyValue>, builderIndent: string, builderDelim: Option<string>)
    requires objs != [] && objs[0] != PNone
    ensures ConcatAfter(prefix, objs, builderIndent, builderDelim)
            == ConcatAfter(prefix + Piece(objs[0], Option.None, Option.None, builderIndent, builderDelim).value,
                           objs[1..], builderIndent, builderDelim)
  {
    var p := Piece(objs[0], Option.None, Option.None, builderIndent, builderDelim).value;
    var rest := Concat(objs[1..], builderIndent, builderDelim);
    if rest.Ok? {
      assert prefix + (p + rest.value) == (prefix + p) + rest.value;
    }
  }
}
