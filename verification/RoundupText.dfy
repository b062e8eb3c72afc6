// From the text of a rounding option to the lookup it causes: the tokenizer and the parser composed.
module RoundupText {
  import opened Wrappers
  import opened Bits
  import opened Decimals
  import opened ConfigTokenizer
  import opened RoundupTable

  // "b1:v1,...,bk:vk," with the boundaries 2^es[j] in megabytes.
  function EntriesText(es: seq<nat>, vs: seq<nat>): (text: string)
    requires |es| == |vs|
  {
    var n := |es| - 1;
    if n < 0 then "" else EntriesText(es[..n], vs[..n]) + Decimal(Shl(1, es[n])) + ":" + Decimal(vs[n]) + ","
  }

  // "key:[b1:v1,...,bk:vk,>:w]"
  function OptionText(key: string, es: seq<nat>, vs: seq<nat>, w: nat): (text: string)
    requires |es| == |vs|
  {
    key + ":" + "[" + EntriesText(es, vs) + ">" + ":" + Decimal(w) + "]"
  }

  function EntriesTokens(es: seq<nat>, vs: seq<nat>): (tokens: seq<string>)
    requires |es| == |vs|
  {
    var n := |es| - 1;
    if n < 0 then [] else EntriesTokens(es[..n], vs[..n]) + [Decimal(Shl(1, es[n])), ":", Decimal(vs[n]), ","]
  }

  function OptionTokens(key: string, es: seq<nat>, vs: seq<nat>, w: nat): (tokens: seq<string>)
    requires |es| == |vs|
  {
    [key, ":", "["] + EntriesTokens(es, vs) + [">", ":", Decimal(w), "]"]
  }

  // ----- the tokens of the text -----

  lemma {:induction false} EntriesTokensAt(es: seq<nat>, vs: seq<nat>, j: nat)
    requires |es| == |vs|
    ensures var t := EntriesTokens(es, vs);
            && |t| == 4 * |es|
            && (j < |es| ==> t[4 * j] == Decimal(Shl(1, es[j])) && t[4 * j + 1] == ":"
                             && t[4 * j + 2] == Decimal(vs[j]) && t[4 * j + 3] == ",")
  {
    var n := |es| - 1;
    if n >= 0 {
      EntriesTokensAt(es[..n], vs[..n], j);
    }
  }

  lemma NumberIsWord(n: nat)
    ensures IsWord(Decimal(n)) && Decimal(n) != ">" && Decimal(n) != "]"
  {
    var s := Decimal(n);
    assert forall i :: 0 <= i < |s| ==> IsDigit(s[i]);
    assert IsDigit(s[0]);
  }

  // Four tokens behind a list that ends in a separator.
  lemma AppendFour(tokens: seq<string>, a: string, b: string, c: string, d: string)
    requires IsTokenList(tokens) && tokens != [] && IsSeparatorToken(tokens[|tokens| - 1])
    requires IsWord(a) && IsSeparatorToken(b) && IsWord(c) && IsSeparatorToken(d)
    ensures IsTokenList(tokens + [a, b, c, d]) && IsSeparatorToken((tokens + [a, b, c, d])[|tokens| + 3])
    ensures Flatten(tokens + [a, b, c, d]) == Flatten(tokens) + a + b + c + d
  {
    Append(tokens, a);
    Append(tokens + [a], b);
    Append(tokens + [a] + [b], c);
    Append(tokens + [a] + [b] + [c], d);
    assert tokens + [a, b, c, d] == tokens + [a] + [b] + [c] + [d];
  }

  lemma KeyTokens(key: string)
    requires IsWord(key)
    ensures IsTokenList([key, ":", "["]) && Flatten([key, ":", "["]) == key + ":" + "["
  {
    Append([], key);
    Append([key], ":");
    Append([key, ":"], "[");
    assert [] + [key] == [key] && [key] + [":"] == [key, ":"] && [key, ":"] + ["["] == [key, ":", "["];
  }

  lemma AppendAll<T>(front: seq<T>, middle: seq<T>, rest: seq<T>)
    ensures front + (middle + rest) == front + middle + rest
  {
  }

  lemma Regroup(front: string, text: string, a: string, b: string, c: string, d: string)
    ensures front + text + a + b + c + d == front + (text + a + b + c + d)
  {
  }

  lemma {:induction false} EntriesAreTokens(key: string, es: seq<nat>, vs: seq<nat>)
    requires IsWord(key) && |es| == |vs|
    ensures var t := [key, ":", "["] + EntriesTokens(es, vs);
            && IsTokenList(t) && IsSeparatorToken(t[|t| - 1])
            && Flatten(t) == key + ":" + "[" + EntriesText(es, vs)
  {
    var n, head := |es| - 1, [key, ":", "["];
    KeyTokens(key);
    if n >= 0 {
      EntriesAreTokens(key, es[..n], vs[..n]);
      var a, c, front := Decimal(Shl(1, es[n])), Decimal(vs[n]), EntriesTokens(es[..n], vs[..n]);
      NumberIsWord(Shl(1, es[n]));
      NumberIsWord(vs[n]);
      AppendFour(head + front, a, ":", c, ",");
      AppendAll(head, front, [a, ":", c, ","]);
      Regroup(key + ":" + "[", EntriesText(es[..n], vs[..n]), a, ":", c, ",");
    } else {
      assert head + EntriesTokens(es, vs) == head;
    }
  }

  lemma OptionIsTokens(key: string, es: seq<nat>, vs: seq<nat>, w: nat)
    requires IsWord(key) && |es| == |vs|
    ensures IsTokenList(OptionTokens(key, es, vs, w))
    ensures Flatten(OptionTokens(key, es, vs, w)) == OptionText(key, es, vs, w)
  {
    EntriesAreTokens(key, es, vs);
    NumberIsWord(w);
    AppendFour([key, ":", "["] + EntriesTokens(es, vs), ">", ":", Decimal(w), "]");
  }

  // Whatever token list the tokenizer returns for the text, it is this one.
  lemma TextHasTheseTokens(key: string, es: seq<nat>, vs: seq<nat>, w: nat, config: seq<string>)
    requires IsWord(key) && |es| == |vs|
    requires IsTokenList(config) && Flatten(config) == Strip(OptionText(key, es, vs, w))
    ensures config == OptionTokens(key, es, vs, w)
  {
    OptionIsTokens(key, es, vs, w);
    FlattenNoSpace(OptionTokens(key, es, vs, w));
    StripNoSpace(OptionText(key, es, vs, w));
    TokensAreUnique(config, OptionTokens(key, es, vs, w));
  }

  // ----- what the tokens mean -----

  predicate ValueFits(v: nat) {
    v < WORD && (v == 0 || IsPowerOf2(v))
  }

  lemma BoundaryReads(e: nat)
    requires e < INTERVALS
    ensures ToSizeT(Decimal(Shl(1, e))) == Some(Shl(1, e))
  {
    ShlMonotone(e, 16);
    PowerSixteen();
    ReadSize(Shl(1, e));
  }

  lemma PowerSixteen()
    ensures Shl(1, 16) == 0x1_0000
  {
    assert Shl(1, 2) == 4 && Shl(1, 4) == 16 && Shl(1, 6) == 64 && Shl(1, 8) == 256;
    assert Shl(1, 10) == 1024 && Shl(1, 12) == 4096 && Shl(1, 14) == 16384;
  }

  lemma OptionEntry(key: string, es: seq<nat>, vs: seq<nat>, w: nat, j: nat)
    requires |es| == |vs| && j < |es| && es[j] < INTERVALS && ValueFits(vs[j])
    ensures IsEntry(OptionTokens(key, es, vs, w), 3 + 4 * j, es[j], vs[j])
  {
    EntriesTokensAt(es, vs, j);
    BoundaryReads(es[j]);
    ReadSize(vs[j]);
    NumberIsWord(Shl(1, es[j]));
  }

  lemma OptionRest(key: string, es: seq<nat>, vs: seq<nat>, w: nat)
    requires |es| == |vs| && ValueFits(w)
    ensures IsRest(OptionTokens(key, es, vs, w), 3 + 4 * |es|, w) && OptionTokens(key, es, vs, w)[2] == "["
  {
    EntriesTokensAt(es, vs, 0);
    ReadSize(w);
  }

  lemma OptionIsList(key: string, es: seq<nat>, vs: seq<nat>, w: nat)
    requires |es| == |vs| && Increasing(es) && (es == [] || es[|es| - 1] < INTERVALS)
    requires ValueFits(w) && forall j :: 0 <= j < |vs| ==> ValueFits(vs[j])
    ensures IsList(OptionTokens(key, es, vs, w), 3, es, vs, w) && OptionTokens(key, es, vs, w)[2] == "["
  {
    IncreasingIsBounded(es);
    forall j | 0 <= j < |es| ensures IsEntry(OptionTokens(key, es, vs, w), 3 + 4 * j, es[j], vs[j]) {
      OptionEntry(key, es, vs, w, j);
    }
    OptionRest(key, es, vs, w);
  }

  // The table after parsing the option's tokens looks every size up as the option says.
  lemma OptionMeans(key: string, es: seq<nat>, vs: seq<nat>, w: nat, table: seq<nat>)
    requires |es| == |vs| >= 1 && Increasing(es) && es[|es| - 1] <= INTERVALS - 2
    requires ValueFits(w) && forall j :: 0 <= j < |vs| ==> ValueFits(vs[j])
    requires table == seq(INTERVALS, _ => 0)
    ensures var r := ParseOption(OptionTokens(key, es, vs, w), 0, table);
            r.end.Some? && |r.table| == INTERVALS && LooksUpAll(es, vs, w, r.table)
  {
    OptionIsList(key, es, vs, w);
    ListMeans(OptionTokens(key, es, vs, w), 0, es, vs, w, table);
  }

  // From the text to the lookup, for every increasing list of boundaries up to 2^14 MB.
  method Configure(config: AllocatorConfig, key: string, es: seq<nat>, vs: seq<nat>, w: nat) returns (end: Option<nat>)
    requires config.divisions.Length == INTERVALS && IsWord(key)
    requires |es| == |vs| >= 1 && Increasing(es) && es[|es| - 1] <= INTERVALS - 2
    requires ValueFits(w) && forall j :: 0 <= j < |vs| ==> ValueFits(vs[j])
    modifies config.divisions
    ensures end.Some?
    ensures LooksUpAll(es, vs, w, config.divisions[..])
  {
    var tokens := Tokenize(OptionText(key, es, vs, w));
    TextHasTheseTokens(key, es, vs, w, tokens);
    config.Reset();
    ghost var table := config.divisions[..];
    assert table == seq(INTERVALS, _ => 0);
    OptionMeans(key, es, vs, w, table);
    end := config.ParseRoundUpPower2Divisions(tokens, 0);
  }

  // ----- the form without brackets -----

  lemma SingleTokens(key: string, v: nat)
    requires IsWord(key)
    ensures IsTokenList([key, ":", Decimal(v)]) && Flatten([key, ":", Decimal(v)]) == key + ":" + Decimal(v)
  {
    NumberIsWord(v);
    KeyAndColon(key);
    Append([key, ":"], Decimal(v));
    assert [key, ":"] + [Decimal(v)] == [key, ":", Decimal(v)];
  }

  lemma KeyAndColon(key: string)
    requires IsWord(key)
    ensures IsTokenList([key, ":"]) && Flatten([key, ":"]) == key + ":"
  {
    Append([], key);
    Append([key], ":");
    assert [] + [key] == [key] && [key] + [":"] == [key, ":"];
  }

  lemma TextHasThreeTokens(key: string, v: nat, config: seq<string>)
    requires IsWord(key) && IsTokenList(config) && Flatten(config) == Strip(key + ":" + Decimal(v))
    ensures config == [key, ":", Decimal(v)]
  {
    SingleTokens(key, v);
    FlattenNoSpace([key, ":", Decimal(v)]);
    StripNoSpace(key + ":" + Decimal(v));
    TokensAreUnique(config, [key, ":", Decimal(v)]);
  }

  // From the text "key:v" to the lookup: v for every size, if v is a power of two in range; otherwise
  // parsing throws and the reset table stays.
  method ConfigureAll(config: AllocatorConfig, key: string, v: nat) returns (end: Option<nat>)
    requires config.divisions.Length == INTERVALS && IsWord(key)
    modifies config.divisions
    ensures end == if v < WORD && IsPowerOf2(v) then Some(2) else None
    ensures forall size: nat :: Lookup(config.divisions[..], size) == if end.Some? then v else 0
  {
    var tokens := Tokenize(key + ":" + Decimal(v));
    TextHasThreeTokens(key, v, tokens);
    NumberIsWord(v);
    config.Reset();
    ghost var table := config.divisions[..];
    assert IsDigit(Decimal(v)[0]);
    ReadSize(v);
    SingleValueMeans(tokens, 0, table);
    end := config.ParseRoundUpPower2Divisions(tokens, 0);
  }
}
