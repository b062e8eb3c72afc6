// Device strings (c10/core/Device.cpp): the parsing automaton accepts a regular language, and
// parsing what str() prints gives the device back, exactly when the conditions below hold.
module DeviceString {
  import opened Decimals

  datatype DeviceType =
    | CPU | CUDA | MKLDNN | OPENGL | OPENCL | IDEEP | HIP | FPGA | MAIA | XLA | Vulkan
    | Metal | XPU | MPS | Meta | HPU | VE | Lazy | IPU | MTIA | PrivateUse1

  // index is an int8; -1 stands for the current device.
  datatype Device = Device(kind: DeviceType, index: int)

  datatype Error = EmptyString | InvalidString | BadIndex | UnknownType

  datatype Result<T> = Ok(value: T) | Err(error: Error)

  // ----- names -----

  // DeviceTypeName in lower case; the private backend goes by its registered name, which is
  // "privateuseone" until one is registered.
  function TypeName(t: DeviceType, backend: string): (text: string) {
    match t
    case CPU => "cpu"
    case CUDA => "cuda"
    case MKLDNN => "mkldnn"
    case OPENGL => "opengl"
    case OPENCL => "opencl"
    case IDEEP => "ideep"
    case HIP => "hip"
    case FPGA => "fpga"
    case MAIA => "maia"
    case XLA => "xla"
    case Vulkan => "vulkan"
    case Metal => "metal"
    case XPU => "xpu"
    case MPS => "mps"
    case Meta => "meta"
    case HPU => "hpu"
    case VE => "ve"
    case Lazy => "lazy"
    case IPU => "ipu"
    case MTIA => "mtia"
    case PrivateUse1 => backend
  }

  // The table of parse_type, searched in its order.
  function FindType(name: string): (r: Result<DeviceType>) {
    if name == "cpu" then Ok(CPU)
    else if name == "cuda" then Ok(CUDA)
    else if name == "ipu" then Ok(IPU)
    else if name == "xpu" then Ok(XPU)
    else if name == "mkldnn" then Ok(MKLDNN)
    else if name == "opengl" then Ok(OPENGL)
    else if name == "opencl" then Ok(OPENCL)
    else if name == "ideep" then Ok(IDEEP)
    else if name == "hip" then Ok(HIP)
    else if name == "ve" then Ok(VE)
    else if name == "fpga" then Ok(FPGA)
    else if name == "maia" then Ok(MAIA)
    else if name == "xla" then Ok(XLA)
    else if name == "lazy" then Ok(Lazy)
    else if name == "vulkan" then Ok(Vulkan)
    else if name == "mps" then Ok(MPS)
    else if name == "meta" then Ok(Meta)
    else if name == "hpu" then Ok(HPU)
    else if name == "mtia" then Ok(MTIA)
    else if name == "privateuseone" then Ok(PrivateUse1)
    else Err(UnknownType)
  }

  function ParseType(name: string, backend: string): (r: Result<DeviceType>) {
    if name == backend then Ok(PrivateUse1) else FindType(name)
  }

  // ----- the syntax -----

  predicate IsAlpha(c: char) {
    'a' <= c <= 'z' || 'A' <= c <= 'Z'
  }

  // [a-zA-Z_]+
  predicate IsName(s: string) {
    s != "" && forall i :: 0 <= i < |s| ==> IsAlpha(s[i]) || s[i] == '_'
  }

  // [1-9][0-9]*|0
  predicate IsIndex(s: string) {
    s != "" && (forall i :: 0 <= i < |s| ==> IsDigit(s[i])) && (s[0] == '0' ==> |s| == 1)
  }

  // The string consists of this name and this index, empty when there is none.
  predicate SplitsInto(s: string, name: string, index: string) {
    IsName(name) && if index == "" then s == name else IsIndex(index) && s == name + ":" + index
  }

  // ([a-zA-Z_]+)(:([1-9][0-9]*|0))?
  ghost predicate Matches(s: string) {
    exists name, index :: SplitsInto(s, name, index)
  }

  datatype ParsingState = START | INDEX_START | INDEX_REST | ERROR

  // Where the automaton is after reading s, whose name and index parts it has collected.
  ghost predicate Reads(s: string, pstate: ParsingState, name: string, index: string) {
    && (pstate == ERROR || name == "" || IsName(name))
    && match pstate
       case START => index == "" && s == name
       case INDEX_START => index == "" && s == name + ":"
       case INDEX_REST => IsIndex(index) && s == name + ":" + index
       case ERROR => forall rest :: !Matches(s + rest)
  }

  method ParseSyntax(s: string) returns (ok: bool, name: string, index: string)
    ensures ok <==> Matches(s)
    ensures ok ==> SplitsInto(s, name, index)
  {
    name, index := "", "";
    var pstate := START;
    var i := 0;
    while pstate != ERROR && i < |s|
      invariant 0 <= i <= |s|
      invariant Reads(s[..i], pstate, name, index)
      decreases |s| - i, pstate != ERROR
    {
      var ch := s[i];
      ghost var before, st0, name0, index0 := s[..i], pstate, name, index;
      match pstate {
        case START =>
          if ch != ':' {
            if IsAlpha(ch) || ch == '_' {
              name := name + [ch];
            } else {
              pstate := ERROR;
            }
          } else {
            pstate := INDEX_START;
          }
        case INDEX_START =>
          if IsDigit(ch) {
            index := index + [ch];
            pstate := INDEX_REST;
          } else {
            pstate := ERROR;
          }
        case INDEX_REST =>
          if index[0] == '0' {
            pstate := ERROR;
          } else if IsDigit(ch) {
            index := index + [ch];
          } else {
            pstate := ERROR;
          }
        case ERROR =>
      }
      assert s[..i + 1] == before + [ch];
      if pstate == ERROR {
        NoWayBack(before, st0, name0, index0, ch);
      }
      i := i + 1;
    }
    ok := !(name == "" || pstate == ERROR || (pstate == INDEX_START && index == ""));
    if pstate == ERROR {
      assert s == s[..i] + s[i..];
    } else {
      assert s[..i] == s;
      AtTheEnd(s, pstate, name, index);
    }
  }

  // The name part of a match ends at the first colon.
  lemma FirstColon(s: string, name: string, index: string, k: nat)
    requires SplitsInto(s, name, index) && k < |s|
    ensures k < |name| ==> IsAlpha(s[k]) || s[k] == '_'
    ensures k == |name| ==> s[k] == ':'
    ensures k > |name| ==> IsDigit(s[k]) && s[k] == index[k - |name| - 1]
    ensures s[k] == ':' ==> k == |name|
  {
    if index != "" {
      assert s == name + ([':'] + index);
      if k > |name| {
        assert s[k] == ([':'] + index)[k - |name|];
      }
    }
  }

  // Where the colon and the digits of a match are.
  lemma SplitShape(s: string, name: string, index: string)
    ensures SplitsInto(s, name, index) ==>
              && 0 < |name| <= |s| && |s| != |name| + 1
              && (forall k :: 0 <= k < |s| ==> (s[k] == ':' <==> k == |name|))
              && (forall k :: 0 <= k < |name| ==> IsAlpha(s[k]) || s[k] == '_')
              && (forall k :: |name| < k < |s| ==> IsDigit(s[k]))
              && (|name| + 2 < |s| ==> s[|name| + 1] != '0')
  {
    if SplitsInto(s, name, index) {
      forall k | 0 <= k < |s|
        ensures k < |name| ==> IsAlpha(s[k]) || s[k] == '_'
        ensures k == |name| ==> s[k] == ':'
        ensures k > |name| ==> IsDigit(s[k]) && s[k] == index[k - |name| - 1]
        ensures s[k] == ':' ==> k == |name|
      {
        FirstColon(s, name, index, k);
      }
    }
  }

  // A character the automaton rejects cannot be continued to a match.
  lemma NoWayBack(s: string, pstate: ParsingState, name: string, index: string, ch: char)
    requires Reads(s, pstate, name, index) && pstate != ERROR
    requires match pstate
             case START => ch != ':' && !IsAlpha(ch) && ch != '_'
             case INDEX_START => !IsDigit(ch)
             case INDEX_REST => index[0] == '0' || !IsDigit(ch)
             case ERROR => true
    ensures forall rest :: !Matches(s + [ch] + rest)
  {
    forall rest ensures !Matches(s + [ch] + rest) {
      var t := s + [ch] + rest;
      forall n, x ensures !SplitsInto(t, n, x) {
        Refuted(s, pstate, name, index, ch, t, n, x);
      }
    }
  }

  lemma Refuted(s: string, pstate: ParsingState, name: string, index: string, ch: char, t: string, n: string, x: string)
    requires Reads(s, pstate, name, index) && pstate != ERROR
    requires match pstate
             case START => ch != ':' && !IsAlpha(ch) && ch != '_'
             case INDEX_START => !IsDigit(ch)
             case INDEX_REST => index[0] == '0' || !IsDigit(ch)
             case ERROR => true
    requires |t| > |s| && t[..|s|] == s && t[|s|] == ch
    ensures !SplitsInto(t, n, x)
  {
    assert forall k :: 0 <= k < |s| ==> t[k] == s[k];
    if pstate == START {
      assert |n| < |s| ==> t[|n|] == name[|n|] != ':';
    } else {
      assert t[|name|] == s[|name|] == ':';
    }
    if pstate == INDEX_REST {
      assert t[|name| + 1] == s[|name| + 1] == index[0];
      assert |s| >= |name| + 2;
    }
    SplitShape(t, n, x);
  }

  // At the end of the string the state and the collected parts decide.
  lemma AtTheEnd(s: string, pstate: ParsingState, name: string, index: string)
    requires Reads(s, pstate, name, index) && pstate != ERROR
    ensures name != "" && pstate != INDEX_START ==> SplitsInto(s, name, index)
    ensures name == "" || pstate == INDEX_START ==> !Matches(s)
  {
    if name == "" || pstate == INDEX_START {
      assert pstate != START ==> s[|name|] == ':';
      forall n, x ensures !SplitsInto(s, n, x) {
        SplitShape(s, n, x);
      }
    }
  }

  // A string splits in one way only.
  lemma SplitUnique(s: string, name: string, index: string, name': string, index': string)
    requires SplitsInto(s, name, index) && SplitsInto(s, name', index')
    ensures name == name' && index == index'
  {
    if |name| < |s| {
      FirstColon(s, name, index, |name|);
      FirstColon(s, name', index', |name|);
    }
    if |name'| < |s| {
      FirstColon(s, name', index', |name'|);
      FirstColon(s, name, index, |name'|);
    }
    assert |name| == |name'|;
    assert name == s[..|name|] == name';
    if index != "" {
      assert index == s[|name| + 1..];
    }
    if index' != "" {
      assert index' == s[|name| + 1..];
    }
  }

  // ----- numbers -----

  function Value(s: string): (v: nat)
    requires forall i :: 0 <= i < |s| ==> IsDigit(s[i])
  {
    if s == "" then 0 else assert IsDigit(s[|s| - 1]); 10 * Value(s[..|s| - 1]) + (s[|s| - 1] as int - '0' as int)
  }

  lemma {:induction false} DecimalValue(n: nat)
    ensures IsIndex(Decimal(n)) && Value(Decimal(n)) == n
    ensures n > 0 ==> Decimal(n)[0] != '0'
  {
    if n >= 10 {
      DecimalValue(n / 10);
      assert Decimal(n)[..|Decimal(n)| - 1] == Decimal(n / 10);
    } else {
      assert [Digit(n)][..0] == "";
    }
  }

  // static_cast<int8_t>
  function Narrow(v: nat): (r: int)
    ensures -128 <= r < 128
    ensures (v - r) % 256 == 0
    ensures v <= 127 ==> r == v
  {
    (v + 128) % 256 - 128
  }

  // ----- parsing and printing a device -----

  ghost function NameOf(s: string): (text: string)
    requires Matches(s)
  {
    var name, index :| SplitsInto(s, name, index);
    name
  }

  ghost function IndexOf(s: string): (text: string)
    requires Matches(s)
    ensures SplitsInto(s, NameOf(s), IndexOf(s))
  {
    var index :| SplitsInto(s, NameOf(s), index);
    index
  }

  // What the constructor from a string makes of s.
  ghost function DeviceOf(s: string, backend: string): (r: Result<Device>) {
    if s == "" then Err(EmptyString)
    else if !Matches(s) then Err(InvalidString)
    else
      var digits := IndexOf(s);
      if digits != "" && Value(digits) > 0x7FFF_FFFF then Err(BadIndex)
      else
        match ParseType(NameOf(s), backend)
        case Err(e) => Err(e)
        case Ok(t) => Ok(Device(t, if digits == "" then -1 else Narrow(Value(digits))))
  }

  method ParseDevice(s: string, backend: string) returns (r: Result<Device>)
    ensures r == DeviceOf(s, backend)
  {
    if s == "" {
      return Err(EmptyString);
    }
    var ok, name, digits := ParseSyntax(s);
    if !ok {
      return Err(InvalidString);
    }
    SplitUnique(s, name, digits, NameOf(s), IndexOf(s));
    var index := -1;
    if digits != "" {
      // std::stoi throws beyond the range of int.
      if Value(digits) > 0x7FFF_FFFF {
        return Err(BadIndex);
      }
      index := Narrow(Value(digits));
    }
    var t := ParseType(name, backend);
    match t {
      case Err(e) => r := Err(e);
      case Ok(k) => r := Ok(Device(k, index));
    }
  }

  function Str(d: Device, backend: string): (text: string) {
    TypeName(d.kind, backend) +
    if d.index == -1 then ""
    else if d.index >= 0 then ":" + Decimal(d.index)
    else ":-" + Decimal(-d.index)
  }

  lemma NamesAreNames(t: DeviceType, backend: string)
    requires t != PrivateUse1
    ensures IsName(TypeName(t, backend))
  {
  }

  lemma TableInvertsNames(t: DeviceType, backend: string)
    requires t != PrivateUse1
    ensures FindType(TypeName(t, backend)) == if t == Metal then Err(UnknownType) else Ok(t)
  {
  }

  function IndexDigits(index: int): (text: string) {
    if index < 0 then "" else Decimal(index)
  }

  // What str() prints splits into the type name and the digits, if at all; a negative index
  // other than -1 is printed with a sign the parser refuses.
  lemma StrSplits(d: Device, backend: string, name: string, digits: string)
    requires d.index != -1 || digits == ""
    ensures SplitsInto(Str(d, backend), name, digits) <==>
              d.index >= -1 && IsName(name) && name == TypeName(d.kind, backend) && digits == IndexDigits(d.index)
  {
    var s, t := Str(d, backend), TypeName(d.kind, backend);
    SplitShape(s, name, digits);
    if d.index >= 0 {
      DecimalValue(d.index);
      assert s[|t|] == ':';
      assert s[..|t|] == t && s[|t| + 1..] == Decimal(d.index);
      assert (name + ":" + digits)[..|name|] == name && (name + ":" + digits)[|name| + 1..] == digits;
    } else if d.index < -1 {
      assert s[|t|] == ':' && s[|t| + 1] == '-';
    }
  }

  // A private backend named like this prints, without an index, as a string that reads as the
  // default private backend with an index that narrows to -1.
  ghost predicate NarrowsToNoIndex(backend: string) {
    exists digits ::
      && SplitsInto(backend, "privateuseone", digits) && digits != ""
      && Value(digits) <= 0x7FFF_FFFF && Narrow(Value(digits)) == -1
  }

  // Parsing the printed form gives the device back, for every registered backend name.
  lemma RoundTripExactly(d: Device, backend: string)
    requires -128 <= d.index < 128
    ensures DeviceOf(Str(d, backend), backend) == Ok(d) <==>
              && d.index >= -1
              && if d.kind == PrivateUse1 then IsName(backend) || (d.index == -1 && NarrowsToNoIndex(backend))
                 else d.kind != Metal && TypeName(d.kind, backend) != backend
  {
    var s, t, digits := Str(d, backend), TypeName(d.kind, backend), IndexDigits(d.index);
    StrSplits(d, backend, t, digits);
    if d.kind != PrivateUse1 {
      NamesAreNames(d.kind, backend);
      TableInvertsNames(d.kind, backend);
    }
    if d.index >= 0 {
      DecimalValue(d.index);
    }
    if d.kind == PrivateUse1 && d.index == -1 {
      assert s == backend;
      UnindexedPrivate(backend);
    } else if Matches(s) {
      if d.index == -1 {
        SplitUnique(s, t, "", NameOf(s), IndexOf(s));
      }
      StrSplits(d, backend, NameOf(s), IndexOf(s));
    }
  }

  lemma UnindexedPrivate(backend: string)
    ensures DeviceOf(backend, backend) == Ok(Device(PrivateUse1, -1)) <==> IsName(backend) || NarrowsToNoIndex(backend)
  {
    if IsName(backend) {
      assert SplitsInto(backend, backend, "");
      SplitUnique(backend, backend, "", NameOf(backend), IndexOf(backend));
    } else if Matches(backend) {
      var name, digits := NameOf(backend), IndexOf(backend);
      PrivateName(name);
      forall digits' | SplitsInto(backend, "privateuseone", digits') ensures name == "privateuseone" && digits == digits' {
        SplitUnique(backend, name, digits, "privateuseone", digits');
      }
    }
  }

  lemma PrivateName(name: string)
    ensures FindType(name) == Ok(PrivateUse1) <==> name == "privateuseone"
  {
  }

  lemma FoundByName(name: string, t: DeviceType)
    requires FindType(name) == Ok(t)
    ensures name == TypeName(t, "privateuseone")
  {
  }

  lemma NeverMetal(name: string)
    ensures FindType(name) != Ok(Metal)
    ensures FindType(name).Err? ==> FindType(name).error == UnknownType
  {
  }

  // The table knows no other name: an answer is the type whose lower-case name was asked for, the
  // private backend going by its default name.
  lemma FindTypeExactly(name: string, t: DeviceType)
    ensures FindType(name) == Ok(t) <==> t != Metal && name == TypeName(t, "privateuseone")
    ensures FindType(name).Err? ==> FindType(name).error == UnknownType
  {
    NeverMetal(name);
    if FindType(name) == Ok(t) {
      FoundByName(name, t);
    } else if t == PrivateUse1 {
      PrivateName(name);
    } else if name == TypeName(t, "privateuseone") {
      TableInvertsNames(t, "privateuseone");
    }
  }

  // ----- what a name, with or without a number, is parsed into -----

  // The type a name stands for: the registered backend's name comes first, then the table.
  ghost predicate StandsFor(name: string, t: DeviceType, backend: string) {
    if name == backend then t == PrivateUse1 else t != Metal && name == TypeName(t, "privateuseone")
  }

  lemma ParseTypeExactly(name: string, t: DeviceType, backend: string)
    ensures ParseType(name, backend) == Ok(t) <==> StandsFor(name, t, backend)
  {
    FindTypeExactly(name, t);
  }

  lemma BareName(name: string, backend: string, d: Device)
    requires IsName(name)
    ensures DeviceOf(name, backend) == Ok(d) <==> d.index == -1 && StandsFor(name, d.kind, backend)
  {
    assert SplitsInto(name, name, "");
    SplitUnique(name, name, "", NameOf(name), IndexOf(name));
    ParseTypeExactly(name, d.kind, backend);
  }

  lemma NarrowExactly(v: nat, k: int)
    ensures Narrow(v) == k <==> -128 <= k < 128 && (v - k) % 256 == 0
  {
  }

  lemma NumberedSplit(name: string, v: nat)
    requires IsName(name)
    ensures var s := name + ":" + Decimal(v);
            Matches(s) && NameOf(s) == name && IndexOf(s) == Decimal(v) && IsIndex(Decimal(v)) && Value(Decimal(v)) == v
  {
    var s := name + ":" + Decimal(v);
    DecimalValue(v);
    assert SplitsInto(s, name, Decimal(v));
    SplitUnique(s, name, Decimal(v), NameOf(s), IndexOf(s));
  }

  // A number beyond the range of int is refused; any other is narrowed to eight bits.
  lemma NumberedName(name: string, v: nat, backend: string, d: Device)
    requires IsName(name)
    ensures var r := DeviceOf(name + ":" + Decimal(v), backend);
            && (r == Err(BadIndex) <==> v > 0x7FFF_FFFF)
            && (r == Ok(d) <==>
                  v <= 0x7FFF_FFFF && StandsFor(name, d.kind, backend) && -128 <= d.index < 128 && (v - d.index) % 256 == 0)
  {
    NumberedSplit(name, v);
    ParseTypeExactly(name, d.kind, backend);
    NoOtherError(name, backend);
    NarrowExactly(v, d.index);
  }

  lemma NoOtherError(name: string, backend: string)
    ensures ParseType(name, backend).Err? ==> ParseType(name, backend) == Err(UnknownType)
  {
    FindTypeExactly(name, CPU);
  }
}
