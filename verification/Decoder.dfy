/**
 * The generated `skip` and `Unmarshal` functions: loops over the bytes of a message that update an index and the
 * fields of the message. Each is proved equal to the function it computes, in module Parser.
 */
module Decoder {
  import opened ByteStrings
  import opened Messages
  import opened Varint
  import opened Parser
  import opened ParserLaws

  /** Reads a length and that many bytes, starting at `index`; returns the bytes and the index after them. */
  method ReadDelimitedAt(data: Bytes, index: nat) returns (r: Result<(Bytes, nat)>)
    requires index <= |data|
    ensures r == match ReadDelimited(data[index..])
                 case Ok((body, n)) => Ok((body, index + n))
                 case Err(e) => Err(e)
    ensures r.Ok? ==> index < r.value.1 <= |data|
  {
    hide Read;
    var prefixRead :- ReadAt(data, index, 0);
    var (word, i) := prefixRead;
    var length := ToI64(word);
    if length < 0 {
      return Err(InvalidLength);
    }
    var post := i + length;
    if post > |data| {
      return Err(UnexpectedEOF);
    }
    assert data[i..post] == data[index..][i - index..post - index];
    return Ok((data[i..post], post));
  }

  /** `skipInternalTrace(data)`. It recurs on groups and stops on every input; its final panic is out of reach. */
  method SkipField(data: Bytes) returns (r: Result<nat>)
    requires data != []
    ensures r == Skip(data)
    decreases |data|
  {
    hide Read;
    assert data[0..] == data;
    var tagRead :- ReadAt(data, 0, 0);
    var (wire, i) := tagRead;
    var wireType := wire % 8;
    if wireType == 0 {
      var skippedRead :- ReadAt(data, i, 0);
      var (_, j) := skippedRead;
      return Ok(j);
    } else if wireType == 1 {
      return Ok(i + 8);
    } else if wireType == 2 {
      var prefixRead :- ReadAt(data, i, 0);
      var (word, j) := prefixRead;
      var length := ToI64(word);
      if length < 0 {
        return Err(InvalidLength);
      }
      return Ok(j + length);
    } else if wireType == 3 {
      r := SkipGroupFields(data, i);
    } else if wireType == 4 {
      return Ok(i);
    } else if wireType == 5 {
      return Ok(i + 4);
    } else {
      return Err(IllegalWireType(wireType));
    }
  }

  /** The result of skipping that started `k` bytes earlier. */
  function Forward(r: Result<nat>, k: nat): Result<nat> {
    match r
    case Ok(n) => Ok(n + k)
    case Err(e) => Err(e)
  }

  /** The loop over the fields of a group, from `index` to its end-group tag. */
  method SkipGroupFields(data: Bytes, index: nat) returns (r: Result<nat>)
    requires 0 < index <= |data|
    ensures r == Forward(SkipGroup(data[index..]), index)
    decreases |data|, 0
  {
    hide Read, Skip;
    var i := index;
    while true
      invariant index <= i <= |data|
      invariant Forward(SkipGroup(data[index..]), index) == Forward(SkipGroup(data[i..]), i)
      decreases |data| - i
    {
      var start := i;
      var inner := ReadAt(data, i, 0);
      if inner.Err? {
        return Err(inner.error);
      }
      var (wire, j) := inner.value;
      if wire % 8 == 4 {
        return Ok(j);
      }
      var next := SkipField(data[start..]);
      if next.Err? {
        return Err(next.error);
      }
      i := start + next.value;
      if i > |data| {
        return Err(UnexpectedEOF);  // what the next read reports
      }
      assert data[start..][next.value..] == data[i..];
    }
  }

  /** The loop over one map entry that occupies `data[start..post]`. */
  method ReadEntryAt(data: Bytes, kind: Kind, start: nat, post: nat) returns (r: Result<(Bytes, Value)>)
    requires IsMap(kind) && start <= post <= |data|
    ensures r == ReadEntry(kind, data[start..], 0, post - start, [], ZeroValue(kind))
    ensures r.Ok? ==> FitsMap(kind, r.value.1)
  {
    hide Read, Skip, ReadDelimited, ReadEntryItem, ReadValue;
    var i := start;
    var key, value := [], ZeroValue(kind);
    ghost var s := data[start..];
    while i < post
      invariant start <= i <= |data| && FitsMap(kind, value)
      invariant ReadEntry(kind, s, i - start, post - start, key, value)
             == ReadEntry(kind, s, 0, post - start, [], ZeroValue(kind))
      decreases |data| - i
    {
      var item := ReadEntryItemAt(data, kind, i, post, key, value);
      assert s[i - start..] == data[i..];
      if item.Err? {
        return Err(item.error);
      }
      key, value, i := item.value.0, item.value.1, item.value.2;
    }
    return Ok((key, value));
  }

  /** One turn of that loop: the key, the value or an unknown field. */
  method ReadEntryItemAt(data: Bytes, kind: Kind, index: nat, post: nat, key: Bytes, value: Value)
    returns (r: Result<(Bytes, Value, nat)>)
    requires FitsMap(kind, value) && index < post <= |data|
    ensures r == match ReadEntryItem(kind, data[index..], post - index, key, value)
                 case Ok((k, v, n)) => Ok((k, v, index + n))
                 case Err(e) => Err(e)
    ensures r.Ok? ==> FitsMap(kind, r.value.1) && index < r.value.2 <= |data|
  {
    hide Read, Skip, ReadDelimited, FromLittleEndian;
    var tagRead :- ReadAt(data, index, 0);
    var (wire, i) := tagRead;
    assert data[index..][i - index..] == data[i..];
    var num := ToI32(wire / 8);
    if num == 1 {
      var keyRead :- ReadDelimitedAt(data, i);
      var (text, j) := keyRead;
      return Ok((text, value, j));
    } else if num == 2 {
      if kind == NumberMap {
        var numberRead :- ReadAt(data, i, value.bits);
        var (bits, j) := numberRead;
        return Ok((key, Word(bits), j));
      } else if kind == FloatMap {
        if i + 8 > |data| {
          return Err(UnexpectedEOF);
        }
        assert data[i..i + 8] == data[i..][..8];
        Pow256Values();
        FromLittleEndianBound(data[i..i + 8]);
        return Ok((key, Word(FromLittleEndian(data[i..i + 8])), i + 8));
      } else {
        var fieldRead :- ReadDelimitedAt(data, i);
        var (text, j) := fieldRead;
        return Ok((key, Text(text), j));
      }
    } else {
      var n :- SkipField(data[index..]);
      if index + n > post {
        return Err(UnexpectedEOF);
      }
      return Ok((key, value, index + n));
    }
  }

  // ----- one field of a message

  /** A tag with this field number and wire type stands at `index`, and `next` is the index after it. */
  ghost predicate HeaderAt(data: Bytes, index: nat, num: int, wireType: nat, next: nat) {
    && index < next <= |data|
    && var r := Read(data[index..], 0, 0);
       && r.Ok? && r.value.1 == next - index
       && num == ToI32(r.value.0 / 8) > 0 && wireType == r.value.0 % 8 != 4
  }

  /** The common start of every field: the tag and its two checks. */
  method ReadHeader(data: Bytes, index: nat, ghost st: State) returns (r: Result<(int, nat, nat)>)
    requires index < |data|
    ensures r.Ok? ==> HeaderAt(data, index, r.value.0, r.value.1, r.value.2)
    ensures r.Err? ==> ReadFields(data[index..], st) == Err(r.error)
  {
    hide Read, Skip, ReadPayload;
    var tagRead :- ReadAt(data, index, 0);
    var (wire, i) := tagRead;
    var num, wireType := ToI32(wire / 8), wire % 8;
    if wireType == 4 {
      return Err(EndGroup);
    }
    if num <= 0 {
      return Err(IllegalTag(num));
    }
    return Ok((num, wireType, i));
  }

  /** A declared field was read: decoding goes on after it with the field stored. */
  lemma PayloadRead(data: Bytes, index: nat, st: State, num: int, wireType: nat, next: nat)
    requires HeaderAt(data, index, num, wireType, next) && KindOf(st.message, num) != UnknownField
    requires wireType == (if KindOf(st.message, num) == NumberField then 0 else 2)
    ensures var r := ReadPayload(data[next..], st.message, num);
            if r.Ok? then
              next + r.value.1 <= |data|
              && ReadFields(data[index..], st) == ReadFields(data[next + r.value.1..], Saw(st, num, r.value.0))
            else ReadFields(data[index..], st) == Err(r.error)
  {
    hide Read, Skip, ReadPayload, KindOf;
    var s := data[index..];
    assert s[next - index..] == data[next..];
    var r := ReadPayload(data[next..], st.message, num);
    if r.Ok? {
      assert s[next - index + r.value.1..] == data[next + r.value.1..];
    }
  }

  lemma WrongType(data: Bytes, index: nat, st: State, num: int, wireType: nat, next: nat)
    requires HeaderAt(data, index, num, wireType, next) && KindOf(st.message, num) != UnknownField
    requires wireType != (if KindOf(st.message, num) == NumberField then 0 else 2)
    ensures ReadFields(data[index..], st) == Err(WrongWireType(num))
  {
    hide Read, Skip, ReadPayload, KindOf;
  }

  /** Reads a number field. */
  method ReadNumber(data: Bytes, index: nat, ghost st: State, num: int, wireType: nat, next: nat)
    returns (r: Result<(U64, nat)>)
    requires HeaderAt(data, index, num, wireType, next) && KindOf(st.message, num) == NumberField
    ensures r.Ok? ==> next < r.value.1 <= |data|
    ensures r.Ok? ==> ReadFields(data[index..], st)
                      == ReadFields(data[r.value.1..], Saw(st, num, SetNumber(st.message, num, r.value.0)))
    ensures r.Err? ==> ReadFields(data[index..], st) == Err(r.error)
  {
    hide Read, ReadFields, HeaderAt, SetNumber, KindOf;
    if wireType != 0 {
      WrongType(data, index, st, num, wireType, next);
      return Err(WrongWireType(num));
    }
    PayloadRead(data, index, st, num, wireType, next);
    HeaderBounds(data, index, num, wireType, next);
    r := ReadAt(data, next, 0);
  }

  lemma HeaderBounds(data: Bytes, index: nat, num: int, wireType: nat, next: nat)
    requires HeaderAt(data, index, num, wireType, next)
    ensures index < next <= |data| && wireType < 8
  {
  }

  /** Reads a string field. */
  method ReadString(data: Bytes, index: nat, ghost st: State, num: int, wireType: nat, next: nat)
    returns (r: Result<(Bytes, nat)>)
    requires HeaderAt(data, index, num, wireType, next) && KindOf(st.message, num) == StringField
    ensures r.Ok? ==> next < r.value.1 <= |data|
    ensures r.Ok? ==> ReadFields(data[index..], st)
                      == ReadFields(data[r.value.1..], Saw(st, num, SetString(st.message, num, r.value.0)))
    ensures r.Err? ==> ReadFields(data[index..], st) == Err(r.error)
  {
    hide Read, ReadFields, HeaderAt, SetString, KindOf, ReadDelimited;
    if wireType != 2 {
      WrongType(data, index, st, num, wireType, next);
      return Err(WrongWireType(num));
    }
    PayloadRead(data, index, st, num, wireType, next);
    HeaderBounds(data, index, num, wireType, next);
    r := ReadDelimitedAt(data, next);
  }

  /** Reads the body of a nested message, which the caller decodes. */
  method ReadBody(data: Bytes, index: nat, ghost st: State, num: int, wireType: nat, next: nat)
    returns (r: Result<(Bytes, nat)>)
    requires HeaderAt(data, index, num, wireType, next) && KindOf(st.message, num) == MessageField
    ensures r.Ok? ==> next < r.value.1 <= |data| && |r.value.0| < |data|
    ensures r.Ok? ==> var sub := Parser.Unmarshal(r.value.0, FreshSub(st.message, num));
                      ReadFields(data[index..], st)
                      == if sub.Err? then Err(sub.error)
                         else ReadFields(data[r.value.1..], Saw(st, num, AppendSub(st.message, num, sub.value)))
    ensures r.Err? ==> ReadFields(data[index..], st) == Err(r.error)
  {
    hide Read, ReadFields, HeaderAt, AppendSub, KindOf, ReadDelimited, Parser.Unmarshal;
    if wireType != 2 {
      WrongType(data, index, st, num, wireType, next);
      return Err(WrongWireType(num));
    }
    PayloadRead(data, index, st, num, wireType, next);
    HeaderBounds(data, index, num, wireType, next);
    r := ReadDelimitedAt(data, next);
  }

  /** Reads a map field. */
  method ReadMapEntry(data: Bytes, index: nat, ghost st: State, kind: Kind, num: int, wireType: nat, next: nat)
    returns (r: Result<(Bytes, Value, nat)>)
    requires HeaderAt(data, index, num, wireType, next) && KindOf(st.message, num) == kind && IsMap(kind)
    ensures r.Ok? ==> next < r.value.2 <= |data| && FitsMap(kind, r.value.1)
    ensures r.Ok? ==> ReadFields(data[index..], st)
                      == ReadFields(data[r.value.2..],
                                    Saw(st, num, PutEntry(st.message, num, r.value.0, r.value.1)))
    ensures r.Err? ==> ReadFields(data[index..], st) == Err(r.error)
  {
    hide Read, ReadFields, HeaderAt, PutEntry, KindOf, ReadDelimited, ReadEntry;
    if wireType != 2 {
      WrongType(data, index, st, num, wireType, next);
      return Err(WrongWireType(num));
    }
    PayloadRead(data, index, st, num, wireType, next);
    HeaderBounds(data, index, num, wireType, next);
    var body := ReadDelimitedAt(data, next);
    if body.Err? {
      return Err(body.error);
    }
    var (bytes, post) := body.value;
    var start := post - |bytes|;
    assert data[next..][start - next..] == data[start..];
    var entry := ReadEntryAt(data, kind, start, post);
    if entry.Err? {
      return Err(entry.error);
    }
    return Ok((entry.value.0, entry.value.1, post));
  }

  /** Passes over a field the message does not declare; returns the index after it. */
  method SkipUnknown(data: Bytes, index: nat, ghost st: State, num: int, wireType: nat, next: nat)
    returns (r: Result<nat>)
    requires HeaderAt(data, index, num, wireType, next) && KindOf(st.message, num) == UnknownField
    ensures r.Ok? ==> index < r.value <= |data| && ReadFields(data[index..], st) == ReadFields(data[r.value..], st)
    ensures r.Err? ==> ReadFields(data[index..], st) == Err(r.error)
  {
    hide Read, Skip, KindOf, ReadPayload;
    var n := SkipField(data[index..]);
    if n.Err? {
      return Err(n.error);
    }
    if index + n.value > |data| {
      return Err(UnexpectedEOF);
    }
    assert data[index..][n.value..] == data[index + n.value..];
    return Ok(index + n.value);
  }

  // ----- the three messages

  lemma DecodingFailed(data: Bytes, m: Message, error: Error)
    requires ReadFields(data, State(m, {})) == Err(error)
    ensures Parser.Unmarshal(data, m) == Err(error)
  {
  }

  lemma DecodingEnded(data: Bytes, m: Message, st: State)
    requires ReadFields(data, State(m, {})) == ReadFields([], st)
    ensures Parser.Unmarshal(data, m)
         == match FirstMissing(1, RequiredCount(m), st.seen)
            case Some(num) => Err(RequiredNotSet(num))
            case None => Ok(st.message)
  {
  }

  /** `ErrorInfo.Unmarshal(data)`: stores the fields found in `data` into `m0`, one after the other. */
  method UnmarshalErrorInfo(data: Bytes, m0: ErrorInfo) returns (r: Result<ErrorInfo>)
    ensures r == match Parser.Unmarshal(data, ErrorMessage(m0))
                 case Ok(m) => Ok(m.info)
                 case Err(e) => Err(e)
    decreases |data|
  {
    hide ReadFields, HeaderAt, Parser.Unmarshal, FirstMissing;
    var m, seen: set<int>, i := m0, {}, 0;
    ghost var st0 := State(ErrorMessage(m0), {});
    assert data[0..] == data;
    while i < |data|
      invariant 0 <= i <= |data|
      invariant ReadFields(data[i..], State(ErrorMessage(m), seen)) == ReadFields(data, st0)
      decreases |data| - i
    {
      ghost var st := State(ErrorMessage(m), seen);
      var header := ReadHeader(data, i, st);
      if header.Err? {
        DecodingFailed(data, ErrorMessage(m0), header.error);
        return Err(header.error);
      }
      var (num, wireType, next) := header.value;
      HeaderBounds(data, i, num, wireType, next);
      if num == 1 {
        var f := ReadNumber(data, i, st, num, wireType, next);
        if f.Err? {
          DecodingFailed(data, ErrorMessage(m0), f.error);
          return Err(f.error);
        }
        m, i := m.(errorKind := ToI32(f.value.0)), f.value.1;
      } else if num == 2 {
        var f := ReadString(data, i, st, num, wireType, next);
        if f.Err? {
          DecodingFailed(data, ErrorMessage(m0), f.error);
          return Err(f.error);
        }
        m, i := m.(errorMessage := f.value.0), f.value.1;
      } else if num == 3 {
        var f := ReadString(data, i, st, num, wireType, next);
        if f.Err? {
          DecodingFailed(data, ErrorMessage(m0), f.error);
          return Err(f.error);
        }
        m, i := m.(errorStack := m.errorStack + [f.value.0]), f.value.1;
      } else if num == 4 {
        var f := ReadNumber(data, i, st, num, wireType, next);
        if f.Err? {
          DecodingFailed(data, ErrorMessage(m0), f.error);
          return Err(f.error);
        }
        m, i := m.(errorOccurTime := ToI64(f.value.0)), f.value.1;
      } else if num == 256 {
        var f := ReadMapEntry(data, i, st, StringMap, num, wireType, next);
        if f.Err? {
          DecodingFailed(data, ErrorMessage(m0), f.error);
          return Err(f.error);
        }
        m, i := m.(errorTags := m.errorTags[f.value.0 := f.value.1.s]), f.value.2;
      } else {
        var f := SkipUnknown(data, i, st, num, wireType, next);
        if f.Err? {
          DecodingFailed(data, ErrorMessage(m0), f.error);
          return Err(f.error);
        }
        i := f.value;
      }
    }
    assert data[i..] == [];
    DecodingEnded(data, ErrorMessage(m0), State(ErrorMessage(m), seen));
    return Ok(m);
  }

  /** `Span.Unmarshal(data)`: stores the fields found in `data` into `m0`, one after the other. */
  method UnmarshalSpan(data: Bytes, m0: Span) returns (r: Result<Span>)
    ensures r == match Parser.Unmarshal(data, SpanMessage(m0))
                 case Ok(m) => Ok(m.span)
                 case Err(e) => Err(e)
    decreases |data|
  {
    hide ReadFields, HeaderAt, Parser.Unmarshal, FirstMissing;
    var m, seen: set<int>, i := m0, {}, 0;
    ghost var st0 := State(SpanMessage(m0), {});
    assert data[0..] == data;
    while i < |data|
      invariant 0 <= i <= |data|
      invariant ReadFields(data[i..], State(SpanMessage(m), seen)) == ReadFields(data, st0)
      decreases |data| - i
    {
      ghost var st := State(SpanMessage(m), seen);
      var header := ReadHeader(data, i, st);
      if header.Err? {
        DecodingFailed(data, SpanMessage(m0), header.error);
        return Err(header.error);
      }
      var (num, wireType, next) := header.value;
      HeaderBounds(data, i, num, wireType, next);
      if num == 1 {
        var f := ReadString(data, i, st, num, wireType, next);
        if f.Err? {
          DecodingFailed(data, SpanMessage(m0), f.error);
          return Err(f.error);
        }
        m, i := m.(spanId := f.value.0), f.value.1;
        seen := seen + {1};
      } else if num == 2 {
        var f := ReadString(data, i, st, num, wireType, next);
        if f.Err? {
          DecodingFailed(data, SpanMessage(m0), f.error);
          return Err(f.error);
        }
        m, i := m.(parentSpanId := f.value.0), f.value.1;
        seen := seen + {2};
      } else if num == 3 {
        var f := ReadString(data, i, st, num, wireType, next);
        if f.Err? {
          DecodingFailed(data, SpanMessage(m0), f.error);
          return Err(f.error);
        }
        m, i := m.(operationName := f.value.0), f.value.1;
        seen := seen + {3};
      } else if num == 4 {
        var f := ReadNumber(data, i, st, num, wireType, next);
        if f.Err? {
          DecodingFailed(data, SpanMessage(m0), f.error);
          return Err(f.error);
        }
        m, i := m.(startTimeMillisecond := ToI64(f.value.0)), f.value.1;
        seen := seen + {4};
      } else if num == 5 {
        var f := ReadNumber(data, i, st, num, wireType, next);
        if f.Err? {
          DecodingFailed(data, SpanMessage(m0), f.error);
          return Err(f.error);
        }
        m, i := m.(endTimeMillisecond := ToI64(f.value.0)), f.value.1;
        seen := seen + {5};
      } else if num == 6 {
        var f := ReadNumber(data, i, st, num, wireType, next);
        if f.Err? {
          DecodingFailed(data, SpanMessage(m0), f.error);
          return Err(f.error);
        }
        m, i := m.(durationMicroseconds := ToI64(f.value.0)), f.value.1;
        seen := seen + {6};
      } else if num == 7 {
        var f := ReadNumber(data, i, st, num, wireType, next);
        if f.Err? {
          DecodingFailed(data, SpanMessage(m0), f.error);
          return Err(f.error);
        }
        m, i := m.(status := ToI64(f.value.0)), f.value.1;
        seen := seen + {7};
      } else if num == 8 {
        var f := ReadNumber(data, i, st, num, wireType, next);
        if f.Err? {
          DecodingFailed(data, SpanMessage(m0), f.error);
          return Err(f.error);
        }
        m, i := m.(spanType := ToI32(f.value.0)), f.value.1;
        seen := seen + {8};
      } else if num == 9 {
        var f := ReadNumber(data, i, st, num, wireType, next);
        if f.Err? {
          DecodingFailed(data, SpanMessage(m0), f.error);
          return Err(f.error);
        }
        m, i := m.(startTimeMicrosecond := ToI64(f.value.0)), f.value.1;
        seen := seen + {9};
      } else if num == 20 {
        var f := ReadMapEntry(data, i, st, NumberMap, num, wireType, next);
        if f.Err? {
          DecodingFailed(data, SpanMessage(m0), f.error);
          return Err(f.error);
        }
        m, i := m.(paramInt := m.paramInt[f.value.0 := ToI64(f.value.1.bits)]), f.value.2;
      } else if num == 21 {
        var f := ReadMapEntry(data, i, st, FloatMap, num, wireType, next);
        if f.Err? {
          DecodingFailed(data, SpanMessage(m0), f.error);
          return Err(f.error);
        }
        m, i := m.(paramFloat := m.paramFloat[f.value.0 := f.value.1.bits]), f.value.2;
      } else if num == 22 {
        var f := ReadMapEntry(data, i, st, StringMap, num, wireType, next);
        if f.Err? {
          DecodingFailed(data, SpanMessage(m0), f.error);
          return Err(f.error);
        }
        m, i := m.(paramString := m.paramString[f.value.0 := f.value.1.s]), f.value.2;
      } else if num == 40 {
        var f := ReadString(data, i, st, num, wireType, next);
        if f.Err? {
          DecodingFailed(data, SpanMessage(m0), f.error);
          return Err(f.error);
        }
        m, i := m.(resource := f.value.0), f.value.1;
      } else if num == 60 {
        var f := ReadString(data, i, st, num, wireType, next);
        if f.Err? {
          DecodingFailed(data, SpanMessage(m0), f.error);
          return Err(f.error);
        }
        m, i := m.(callServiceType := f.value.0), f.value.1;
      } else if num == 61 {
        var f := ReadString(data, i, st, num, wireType, next);
        if f.Err? {
          DecodingFailed(data, SpanMessage(m0), f.error);
          return Err(f.error);
        }
        m, i := m.(callService := f.value.0), f.value.1;
      } else if num == 62 {
        var f := ReadString(data, i, st, num, wireType, next);
        if f.Err? {
          DecodingFailed(data, SpanMessage(m0), f.error);
          return Err(f.error);
        }
        m, i := m.(callResource := f.value.0), f.value.1;
      } else if num == 70 {
        var f := ReadBody(data, i, st, num, wireType, next);
        if f.Err? {
          DecodingFailed(data, SpanMessage(m0), f.error);
          return Err(f.error);
        }
        var sub := UnmarshalErrorInfo(f.value.0, EMPTY_ERROR_INFO);
        if sub.Err? {
          DecodingFailed(data, SpanMessage(m0), sub.error);
          return Err(sub.error);
        }
        m, i := m.(errorInfoList := m.errorInfoList + [sub.value]), f.value.1;
      } else {
        var f := SkipUnknown(data, i, st, num, wireType, next);
        if f.Err? {
          DecodingFailed(data, SpanMessage(m0), f.error);
          return Err(f.error);
        }
        i := f.value;
      }
    }
    assert data[i..] == [];
    DecodingEnded(data, SpanMessage(m0), State(SpanMessage(m), seen));
    if 1 !in seen {
      return Err(RequiredNotSet(1));
    }
    if 2 !in seen {
      return Err(RequiredNotSet(2));
    }
    if 3 !in seen {
      return Err(RequiredNotSet(3));
    }
    if 4 !in seen {
      return Err(RequiredNotSet(4));
    }
    if 5 !in seen {
      return Err(RequiredNotSet(5));
    }
    if 6 !in seen {
      return Err(RequiredNotSet(6));
    }
    if 7 !in seen {
      return Err(RequiredNotSet(7));
    }
    if 8 !in seen {
      return Err(RequiredNotSet(8));
    }
    if 9 !in seen {
      return Err(RequiredNotSet(9));
    }
    return Ok(m);
  }

  /** `Trace.Unmarshal(data)`: stores the fields found in `data` into `m0`, one after the other. */
  method UnmarshalTrace(data: Bytes, m0: Trace) returns (r: Result<Trace>)
    ensures r == match Parser.Unmarshal(data, TraceMessage(m0))
                 case Ok(m) => Ok(m.trace)
                 case Err(e) => Err(e)
    decreases |data|
  {
    hide ReadFields, HeaderAt, Parser.Unmarshal, FirstMissing;
    var m, seen: set<int>, i := m0, {}, 0;
    ghost var st0 := State(TraceMessage(m0), {});
    assert data[0..] == data;
    while i < |data|
      invariant 0 <= i <= |data|
      invariant ReadFields(data[i..], State(TraceMessage(m), seen)) == ReadFields(data, st0)
      decreases |data| - i
    {
      ghost var st := State(TraceMessage(m), seen);
      var header := ReadHeader(data, i, st);
      if header.Err? {
        DecodingFailed(data, TraceMessage(m0), header.error);
        return Err(header.error);
      }
      var (num, wireType, next) := header.value;
      HeaderBounds(data, i, num, wireType, next);
      if num == 1 {
        var f := ReadString(data, i, st, num, wireType, next);
        if f.Err? {
          DecodingFailed(data, TraceMessage(m0), f.error);
          return Err(f.error);
        }
        m, i := m.(serviceType := f.value.0), f.value.1;
        seen := seen + {1};
      } else if num == 2 {
        var f := ReadString(data, i, st, num, wireType, next);
        if f.Err? {
          DecodingFailed(data, TraceMessage(m0), f.error);
          return Err(f.error);
        }
        m, i := m.(service := f.value.0), f.value.1;
        seen := seen + {2};
      } else if num == 3 {
        var f := ReadString(data, i, st, num, wireType, next);
        if f.Err? {
          DecodingFailed(data, TraceMessage(m0), f.error);
          return Err(f.error);
        }
        m, i := m.(traceId := f.value.0), f.value.1;
        seen := seen + {3};
      } else if num == 4 {
        var f := ReadString(data, i, st, num, wireType, next);
        if f.Err? {
          DecodingFailed(data, TraceMessage(m0), f.error);
          return Err(f.error);
        }
        m, i := m.(env := f.value.0), f.value.1;
        seen := seen + {4};
      } else if num == 5 {
        var f := ReadBody(data, i, st, num, wireType, next);
        if f.Err? {
          DecodingFailed(data, TraceMessage(m0), f.error);
          return Err(f.error);
        }
        var sub := UnmarshalSpan(f.value.0, EMPTY_SPAN);
        if sub.Err? {
          DecodingFailed(data, TraceMessage(m0), sub.error);
          return Err(sub.error);
        }
        m, i := m.(spans := m.spans + [sub.value]), f.value.1;
      } else if num == 6 {
        var f := ReadString(data, i, st, num, wireType, next);
        if f.Err? {
          DecodingFailed(data, TraceMessage(m0), f.error);
          return Err(f.error);
        }
        m, i := m.(containerId := f.value.0), f.value.1;
      } else if num == 7 {
        var f := ReadNumber(data, i, st, num, wireType, next);
        if f.Err? {
          DecodingFailed(data, TraceMessage(m0), f.error);
          return Err(f.error);
        }
        m, i := m.(pid := ToI64(f.value.0)), f.value.1;
      } else if num == 8 {
        var f := ReadNumber(data, i, st, num, wireType, next);
        if f.Err? {
          DecodingFailed(data, TraceMessage(m0), f.error);
          return Err(f.error);
        }
        m, i := m.(processStartTime := ToI64(f.value.0)), f.value.1;
      } else if num == 9 {
        var f := ReadString(data, i, st, num, wireType, next);
        if f.Err? {
          DecodingFailed(data, TraceMessage(m0), f.error);
          return Err(f.error);
        }
        m, i := m.(instanceId := f.value.0), f.value.1;
      } else if num == 64 {
        var f := ReadString(data, i, st, num, wireType, next);
        if f.Err? {
          DecodingFailed(data, TraceMessage(m0), f.error);
          return Err(f.error);
        }
        m, i := m.(appId := f.value.0), f.value.1;
      } else if num == 65 {
        var f := ReadString(data, i, st, num, wireType, next);
        if f.Err? {
          DecodingFailed(data, TraceMessage(m0), f.error);
          return Err(f.error);
        }
        m, i := m.(hostname := f.value.0), f.value.1;
      } else if num == 66 {
        var f := ReadNumber(data, i, st, num, wireType, next);
        if f.Err? {
          DecodingFailed(data, TraceMessage(m0), f.error);
          return Err(f.error);
        }
        m, i := m.(apiTimeSeconds := ToI64(f.value.0)), f.value.1;
      } else {
        var f := SkipUnknown(data, i, st, num, wireType, next);
        if f.Err? {
          DecodingFailed(data, TraceMessage(m0), f.error);
          return Err(f.error);
        }
        i := f.value;
      }
    }
    assert data[i..] == [];
    DecodingEnded(data, TraceMessage(m0), State(TraceMessage(m), seen));
    if 1 !in seen {
      return Err(RequiredNotSet(1));
    }
    if 2 !in seen {
      return Err(RequiredNotSet(2));
    }
    if 3 !in seen {
      return Err(RequiredNotSet(3));
    }
    if 4 !in seen {
      return Err(RequiredNotSet(4));
    }
    return Ok(m);
  }
}
