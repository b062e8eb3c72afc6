// ConfigTokenizer of c10/core/AllocatorConfig.h: splitting a configuration string into
// words and the separators , : [ ].
module ConfigTokenizer {

  predicate IsSeparator(c: char) {
    c == ',' || c == ':' || c == '[' || c == ']'
  }

  // std::isspace in the C locale.
  predicate IsSpace(c: char) {
    c == ' ' || '\t' <= c <= '\r'
  }

  // The text without whitespace.
  function Strip(s: string): (text: string) {
    if s == "" then ""
    else Strip(s[..|s| - 1]) + if IsSpace(s[|s| - 1]) then "" else [s[|s| - 1]]
  }

  function Flatten(tokens: seq<string>): (text: string) {
    if tokens == [] then "" else Flatten(tokens[..|tokens| - 1]) + tokens[|tokens| - 1]
  }

  predicate IsSeparatorToken(t: string) {
    |t| == 1 && IsSeparator(t[0])
  }

  predicate IsWordChars(t: string) {
    forall i :: 0 <= i < |t| ==> !IsSeparator(t[i]) && !IsSpace(t[i])
  }

  predicate IsWord(t: string) {
    t != "" && IsWordChars(t)
  }

  // Tokens are separators standing alone or non-empty words, and no two words are adjacent.
  predicate IsTokenList(tokens: seq<string>) {
    && (forall i :: 0 <= i < |tokens| ==> IsToken(tokens[i]))
    && (forall i :: 0 < i < |tokens| ==> IsSeparatorToken(tokens[i - 1]) || IsSeparatorToken(tokens[i]))
  }

  predicate IsToken(t: string) {
    IsSeparatorToken(t) || IsWord(t)
  }

  // t may follow the tokens so far.
  predicate MayFollow(tokens: seq<string>, t: string) {
    IsSeparatorToken(t) || tokens == [] || IsSeparatorToken(tokens[|tokens| - 1])
  }

  lemma Append(tokens: seq<string>, t: string)
    requires IsTokenList(tokens) && IsToken(t) && MayFollow(tokens, t)
    ensures IsTokenList(tokens + [t]) && Flatten(tokens + [t]) == Flatten(tokens) + t
  {
    assert (tokens + [t])[..|tokens|] == tokens;
  }

  lemma StripStep(s: string, c: char)
    ensures Strip(s + [c]) == Strip(s) + if IsSpace(c) then "" else [c]
  {
    assert (s + [c])[..|s|] == s;
  }

  // What the tokenizer has made of the text so far: tokens, and the start of a word.
  ghost predicate Scanned(config: seq<string>, buffer: string, text: string) {
    && IsTokenList(config) && IsWordChars(buffer)
    && (config == [] || IsSeparatorToken(config[|config| - 1]) || buffer == "")
    && (buffer == "" && config != [] ==> IsSeparatorToken(config[|config| - 1]))
    && Flatten(config) + buffer == Strip(text)
  }

  function Flushed(config: seq<string>, buffer: string): (tokens: seq<string>) {
    if buffer == "" then config else config + [buffer]
  }

  lemma Flush(config: seq<string>, buffer: string, text: string)
    requires Scanned(config, buffer, text)
    ensures IsTokenList(Flushed(config, buffer)) && Flatten(Flushed(config, buffer)) == Strip(text)
  {
    if buffer != "" {
      Append(config, buffer);
    }
  }

  lemma SeparatorStep(config: seq<string>, buffer: string, text: string, ch: char)
    requires Scanned(config, buffer, text) && IsSeparator(ch)
    ensures Scanned(Flushed(config, buffer) + [[ch]], "", text + [ch])
  {
    Flush(config, buffer, text);
    StripStep(text, ch);
    AppendSeparator(Flushed(config, buffer), text, ch);
  }

  lemma AppendSeparator(tokens: seq<string>, text: string, ch: char)
    requires IsTokenList(tokens) && IsSeparator(ch) && Strip(text + [ch]) == Flatten(tokens) + [ch]
    ensures Scanned(tokens + [[ch]], "", text + [ch])
  {
    Append(tokens, [ch]);
    var longer := tokens + [[ch]];
    assert longer[|longer| - 1] == [ch];
    assert Flatten(longer) + "" == Flatten(longer);
  }

  lemma WordStep(config: seq<string>, buffer: string, text: string, ch: char)
    requires Scanned(config, buffer, text) && !IsSeparator(ch)
    ensures Scanned(config, if IsSpace(ch) then buffer else buffer + [ch], text + [ch])
  {
    StripStep(text, ch);
    assert Flatten(config) + (buffer + [ch]) == Flatten(config) + buffer + [ch];
  }

  // The constructor. By TokensAreUnique below its result is the only possible one.
  method Tokenize(env: string) returns (config: seq<string>)
    ensures IsTokenList(config) && Flatten(config) == Strip(env)
  {
    config := [];
    var buffer := "";
    for i := 0 to |env|
      invariant Scanned(config, buffer, env[..i])
    {
      var ch := env[i];
      assert env[..i + 1] == env[..i] + [ch];
      if IsSeparator(ch) {
        SeparatorStep(config, buffer, env[..i], ch);
        if buffer != "" {
          config := config + [buffer];
          buffer := "";
        }
        config := config + [[ch]];
      } else {
        WordStep(config, buffer, env[..i], ch);
        if !IsSpace(ch) {
          buffer := buffer + [ch];
        }
      }
    }
    assert env[..|env|] == env;
    Flush(config, buffer, env);
    if buffer != "" {
      config := config + [buffer];
    }
  }

  lemma {:induction false} StripNoSpace(s: string)
    requires forall i :: 0 <= i < |s| ==> !IsSpace(s[i])
    ensures Strip(s) == s
  {
    if s != "" {
      StripNoSpace(s[..|s| - 1]);
    }
  }

  lemma {:induction false} FlattenNoSpace(tokens: seq<string>)
    requires IsTokenList(tokens)
    ensures forall i :: 0 <= i < |Flatten(tokens)| ==> !IsSpace(Flatten(tokens)[i])
  {
    if tokens != [] {
      FlattenNoSpace(tokens[..|tokens| - 1]);
    }
  }

  // A last word is everything behind the last separator of the text.
  lemma BeforeLast(ts: seq<string>)
    requires IsTokenList(ts) && ts != []
    ensures var f, x := Flatten(ts), ts[|ts| - 1];
            && 1 <= |x| <= |f| && f == Flatten(ts[..|ts| - 1]) + x
            && (IsWord(x) && |x| < |f| ==> IsSeparator(f[|f| - |x| - 1]))
  {
    var m := |ts| - 1;
    if m > 0 {
      assert ts[..m][..m - 1] == ts[..m - 1] && ts[..m][m - 1] == ts[m - 1];
    }
  }

  // The last token is determined by the text.
  lemma LastTokenNotShorter(ts: seq<string>, us: seq<string>)
    requires IsTokenList(ts) && IsTokenList(us) && ts != [] && us != [] && Flatten(ts) == Flatten(us)
    ensures |ts[|ts| - 1]| >= |us[|us| - 1]|
  {
    BeforeLast(ts);
    BeforeLast(us);
    var f, x, y := Flatten(ts), ts[|ts| - 1], us[|us| - 1];
    assert forall i :: 0 <= i < |y| ==> y[i] == f[|f| - |y| + i];
    assert x[|x| - 1] == f[|f| - 1] == y[|y| - 1];
    var k := if |x| < |y| then |y| - |x| - 1 else 0;
    assert y[k] == f[|f| - |y| + k];
  }

  lemma FlattenNonEmpty(ts: seq<string>)
    requires IsTokenList(ts)
    ensures ts == [] <==> Flatten(ts) == ""
  {
    if ts != [] {
      BeforeLast(ts);
    }
  }

  // A text has only one token list.
  lemma {:induction false} TokensAreUnique(ts: seq<string>, us: seq<string>)
    requires IsTokenList(ts) && IsTokenList(us) && Flatten(ts) == Flatten(us)
    ensures ts == us
    decreases |ts|
  {
    FlattenNonEmpty(ts);
    FlattenNonEmpty(us);
    if ts != [] {
      LastTokenNotShorter(ts, us);
      LastTokenNotShorter(us, ts);
      BeforeLast(ts);
      BeforeLast(us);
      var m, n, f := |ts| - 1, |us| - 1, Flatten(ts);
      var k := |f| - |ts[m]|;
      assert Flatten(ts[..m]) == f[..k] == Flatten(us[..n]);
      assert ts[m] == f[k..] == us[n];
      TokensAreUnique(ts[..m], us[..n]);
      assert ts == ts[..m] + [ts[m]] && us == us[..n] + [us[n]];
    }
  }

  // Tokenizing the text of a token list gives the list back.
  method TokenizeFlattened(tokens: seq<string>) returns (config: seq<string>)
    requires IsTokenList(tokens)
    ensures config == tokens
  {
    config := Tokenize(Flatten(tokens));
    FlattenNoSpace(tokens);
    StripNoSpace(Flatten(tokens));
    TokensAreUnique(config, tokens);
  }
}
