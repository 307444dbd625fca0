/**
 * `parse_tokens_as_operations` of the C++ compilers: one pass over the token vector that
 * emits operations, inlines `bind` definitions and splices in the tokens of a `use`d
 * file. A `use` replaces the token vector, empties the program and restarts the scan at
 * the first token, keeping the bindings made so far.
 *
 * Finding and lexing the `use`d file is input: `files` maps the path written after
 * `use` to the tokens of that file. The scan restarts at most `fuel` times.
 */
module WisParser {
  import opened Wrappers
  import opened Location
  import opened WisText
  import opened WisSyntax

  datatype ParseError =
    | UnfinishedBinding(loc: Loc)                      // `bind` is the last token
    | BindingNameNotWord(loc: Loc, found: TokenType)   // the name after `bind` is not a word
    | BindingNameBuiltIn(loc: Loc, name: string)       // the name is a built-in word
    | RecursiveBinding(loc: Loc)                       // the name occurs in its own body
    | UndefinedToken(loc: Loc, word: string)           // neither built-in nor bound
    | UnfinishedUse(loc: Loc)                          // `use` is the last token
    | UsePathNotString(loc: Loc, found: TokenType)     // no string after `use`
    | FileNotFound(path: string)                       // the `use`d file cannot be found
    | Unreachable(loc: Loc)                            // gollo.cpp meets a character token
    | UnmodelledStringEscape(loc: Loc)                 // an octal or hex escape in a literal
    | UseFuelExhausted                                 // more `use` restarts than the fuel allows

  type Bindings = map<string, seq<Operation>>
  type Files = map<string, seq<Token>>

  /** A C++ `char` read as a signed byte, as `(int)` does on x86-64. */
  function SignedByte(c: char): (v: int)
    ensures -128 <= v < 128
    ensures 0 <= c as int < 128 ==> v == c as int
  {
    var b := c as int % 256;
    if b < 128 then b else b - 256
  }

  /** A word: its built-in op first, else the ops bound to it, else an error. */
  function ResolveWord(v: Vocabulary, bindings: Bindings, t: Token): Result<seq<Operation>, ParseError>
  {
    match Lookup(v.builtIns, t.stringValue)
    case Some(k) => Ok([MakeOp(k, t.loc)])
    case None =>
      if t.stringValue in bindings then Ok(bindings[t.stringValue])
      else Err(UndefinedToken(t.loc, t.stringValue))
  }

  function StringOp(t: Token): Result<Operation, ParseError>
  {
    match Unescaped(t.stringValue)
    case None => Err(UnmodelledStringEscape(t.loc))
    case Some(u) => Ok(PushStringOp(u, t.loc))
  }

  /**
   * A character literal pushes its first unescaped byte; the first byte of an empty
   * string is the terminating zero.
   */
  function CharOp(t: Token): Result<Operation, ParseError>
  {
    match Unescaped(t.stringValue)
    case None => Err(UnmodelledStringEscape(t.loc))
    case Some(u) => Ok(PushIntOp(if |u| == 0 then 0 else SignedByte(u[0]), t.loc))
  }

  /** The ops of a token met outside a binding, when it is neither `bind` nor `use`. */
  function TokenOps(v: Vocabulary, bindings: Bindings, t: Token): Result<seq<Operation>, ParseError>
  {
    match t.kind
    case IntToken => Ok([PushIntOp(t.intValue, t.loc)])
    case StringToken =>
      var op :- StringOp(t);
      Ok([op])
    case CharToken =>
      if v.dialect == Gollo then Err(Unreachable(t.loc))
      else
        var op :- CharOp(t);
        Ok([op])
    case WordToken => ResolveWord(v, bindings, t)
  }

  /** The ops of a token inside a binding's body: a character is looked up as a word. */
  function BodyTokenOps(v: Vocabulary, bindings: Bindings, t: Token): Result<seq<Operation>, ParseError>
  {
    match t.kind
    case StringToken =>
      var op :- StringOp(t);
      Ok([op])
    case IntToken => Ok([PushIntOp(t.intValue, t.loc)])
    case _ => ResolveWord(v, bindings, t)
  }

  predicate OpensBlock(t: Token) { t.stringValue == "if" || t.stringValue == "while" }

  /** The count of open blocks after token `t`; an `end` closes one only if one is open. */
  function NextOpen(open: nat, t: Token): nat
  {
    var open' := if OpensBlock(t) then open + 1 else open;
    if open' > 0 && t.stringValue == "end" then open' - 1 else open'
  }

  /** True where the body loop stops: an `end` (of any token type) with no block open. */
  predicate Closes(open: nat, t: Token) { t.stringValue == "end" && open == 0 }

  /**
   * The inner loop of `bind`, from index `j` with `open` blocks open: it yields the index
   * where it stopped (the closing `end`, or the end of the tokens) and the body's ops.
   */
  function BodyFrom(v: Vocabulary, bindings: Bindings, name: string, tokens: seq<Token>, j: nat, open: nat,
                    body: seq<Operation>): (r: Result<(nat, seq<Operation>), ParseError>)
    requires j <= |tokens|
    ensures r.Ok? ==> j <= r.value.0 <= |tokens|
    decreases |tokens| - j
  {
    if j == |tokens| || Closes(open, tokens[j]) then Ok((j, body))
    else
      var t := tokens[j];
      if t.stringValue == name then Err(RecursiveBinding(t.loc))
      else
        match BodyTokenOps(v, bindings, t)
        case Err(e) => Err(e)
        case Ok(ops) => BodyFrom(v, bindings, name, tokens, j + 1, NextOpen(open, t), body + ops)
  }

  /** `bindings[name]` after its body's ops are appended; the key exists only once it holds an op. */
  function Bound(bindings: Bindings, name: string, body: seq<Operation>): Bindings
  {
    if body == [] then bindings else bindings[name := BoundOps(bindings, name) + body]
  }

  function BoundOps(bindings: Bindings, name: string): seq<Operation>
  {
    if name in bindings then bindings[name] else []
  }

  predicate IsUseWord(t: Token) { t.kind != StringToken && t.stringValue == "use" }

  /** Whether `use` splicing drops token `j`: a `use` word, or the token right after one. */
  predicate Dropped(ts: seq<Token>, j: nat)
    requires j < |ts|
  {
    IsUseWord(ts[j]) || (j > 0 && IsUseWord(ts[j - 1]))
  }

  /** The tokens among the first `n` that `use` splicing keeps, in order. */
  function StripUseUpTo(ts: seq<Token>, n: nat): seq<Token>
    requires n <= |ts|
  {
    if n == 0 then []
    else StripUseUpTo(ts, n - 1) + (if Dropped(ts, n - 1) then [] else [ts[n - 1]])
  }

  function StripUse(ts: seq<Token>): seq<Token> { StripUseUpTo(ts, |ts|) }

  /**
   * A `bind` at index `i`: checks the name, reads the body and yields the index to go on
   * from (just past the closing `end`) and the bindings with the body appended.
   */
  function BindAt(v: Vocabulary, bindings: Bindings, tokens: seq<Token>, i: nat)
    : (r: Result<(nat, Bindings), ParseError>)
    requires i < |tokens|
    ensures r.Ok? ==> i < r.value.0 <= |tokens|
  {
    if i + 1 == |tokens| then Err(UnfinishedBinding(tokens[i].loc))
    else
      var nameTok := tokens[i + 1];
      if nameTok.kind != WordToken then Err(BindingNameNotWord(nameTok.loc, nameTok.kind))
      else if Lookup(v.builtIns, nameTok.stringValue).Some? then Err(BindingNameBuiltIn(nameTok.loc, nameTok.stringValue))
      else
        match BodyFrom(v, bindings, nameTok.stringValue, tokens, i + 2, 0, [])
        case Err(e) => Err(e)
        case Ok((j, body)) => Ok((if j < |tokens| then j + 1 else j, Bound(bindings, nameTok.stringValue, body)))
  }

  /** The scan of `parse_tokens_as_operations` from token `i`. */
  function ParseFrom(v: Vocabulary, files: Files, fuel: nat, tokens: seq<Token>, i: nat,
                     program: seq<Operation>, bindings: Bindings): Result<seq<Operation>, ParseError>
    requires i <= |tokens|
    decreases fuel, |tokens| - i
  {
    if i == |tokens| then Ok(program)
    else
      var t := tokens[i];
      if t.kind == WordToken && t.stringValue == "bind" then
        match BindAt(v, bindings, tokens, i)
        case Err(e) => Err(e)
        case Ok((next, bindings')) => ParseFrom(v, files, fuel, tokens, next, program, bindings')
      else if t.kind == WordToken && t.stringValue == "use" then
        if i + 1 == |tokens| then Err(UnfinishedUse(t.loc))
        else
          var pathTok := tokens[i + 1];
          if pathTok.kind != StringToken then Err(UsePathNotString(pathTok.loc, pathTok.kind))
          else if pathTok.stringValue !in files then Err(FileNotFound(pathTok.stringValue))
          else if fuel == 0 then Err(UseFuelExhausted)
          else ParseFrom(v, files, fuel - 1, files[pathTok.stringValue] + StripUse(tokens), 0, [], bindings)
      else
        match TokenOps(v, bindings, t)
        case Err(e) => Err(e)
        case Ok(ops) => ParseFrom(v, files, fuel, tokens, i + 1, program + ops, bindings)
  }

  function Parse(v: Vocabulary, files: Files, fuel: nat, tokens: seq<Token>): Result<seq<Operation>, ParseError>
  {
    ParseFrom(v, files, fuel, tokens, 0, [], map[])
  }

  lemma ResolveOtherName(v: Vocabulary, bindings: Bindings, name: string, body: seq<Operation>, t: Token)
    requires t.stringValue != name
    ensures ResolveWord(v, Bound(bindings, name, body), t) == ResolveWord(v, bindings, t)
    ensures BodyTokenOps(v, Bound(bindings, name, body), t) == BodyTokenOps(v, bindings, t)
  {
  }

  lemma BoundSnoc(bindings: Bindings, name: string, body: seq<Operation>, ops: seq<Operation>)
    ensures Bound(bindings, name, body + ops)
            == if ops == [] then Bound(bindings, name, body)
               else Bound(bindings, name, body)[name := BoundOps(Bound(bindings, name, body), name) + ops]
  {
    var old_ := BoundOps(bindings, name);
    if ops == [] {
      assert body + ops == body;
    } else if body == [] {
      assert body + ops == ops;
    } else {
      assert old_ + (body + ops) == (old_ + body) + ops;
      assert BoundOps(Bound(bindings, name, body), name) == old_ + body;
    }
  }

  /** One turn of the body loop of `bind`, at a token that does not close the body. */
  lemma BodyFromStep(v: Vocabulary, bindings: Bindings, name: string, tokens: seq<Token>, j: nat, open: nat,
                     body: seq<Operation>)
    requires j < |tokens| && !Closes(open, tokens[j])
    ensures tokens[j].stringValue == name ==>
              BodyFrom(v, bindings, name, tokens, j, open, body) == Err(RecursiveBinding(tokens[j].loc))
    ensures tokens[j].stringValue != name && BodyTokenOps(v, bindings, tokens[j]).Err? ==>
              BodyFrom(v, bindings, name, tokens, j, open, body) == Err(BodyTokenOps(v, bindings, tokens[j]).error)
    ensures tokens[j].stringValue != name && BodyTokenOps(v, bindings, tokens[j]).Ok? ==>
              BodyFrom(v, bindings, name, tokens, j, open, body)
              == BodyFrom(v, bindings, name, tokens, j + 1, NextOpen(open, tokens[j]),
                          body + BodyTokenOps(v, bindings, tokens[j]).value)
  {
  }

  /** `BindAt` once the name has been checked: the outcome of the body loop. */
  lemma BindAtBody(v: Vocabulary, bindings: Bindings, tokens: seq<Token>, i: nat)
    requires i + 1 < |tokens| && tokens[i + 1].kind == WordToken && Lookup(v.builtIns, tokens[i + 1].stringValue).None?
    ensures BindAt(v, bindings, tokens, i)
            == match BodyFrom(v, bindings, tokens[i + 1].stringValue, tokens, i + 2, 0, [])
               case Err(e) => Err(e)
               case Ok((j, body)) => Ok((if j < |tokens| then j + 1 else j, Bound(bindings, tokens[i + 1].stringValue, body)))
  {
  }

  /** The body loop of `bind`, updating `bindings[name]` op by op. */
  method ParseBinding(v: Vocabulary, tokens: seq<Token>, i: nat, bindings0: Bindings)
    returns (r: Result<(nat, Bindings), ParseError>)
    requires i < |tokens|
    ensures r == BindAt(v, bindings0, tokens, i)
  {
    if i + 1 == |tokens| {
      return Err(UnfinishedBinding(tokens[i].loc));
    }
    var nameTok := tokens[i + 1];
    if nameTok.kind != WordToken {
      return Err(BindingNameNotWord(nameTok.loc, nameTok.kind));
    }
    var name := nameTok.stringValue;
    if Lookup(v.builtIns, name).Some? {
      return Err(BindingNameBuiltIn(nameTok.loc, name));
    }
    BindAtBody(v, bindings0, tokens, i);
    var bindings := bindings0;
    ghost var body: seq<Operation> := [];
    var open: nat := 0;
    var j := i + 2;
    while j < |tokens| && !Closes(open, tokens[j])
      invariant i + 2 <= j <= |tokens|
      invariant bindings == Bound(bindings0, name, body)
      invariant BodyFrom(v, bindings0, name, tokens, j, open, body)
                == BodyFrom(v, bindings0, name, tokens, i + 2, 0, [])
      decreases |tokens| - j
    {
      var t := tokens[j];
      BodyFromStep(v, bindings0, name, tokens, j, open, body);
      if t.stringValue == name {
        return Err(RecursiveBinding(t.loc));
      }
      ResolveOtherName(v, bindings0, name, body, t);
      var ops := BodyTokenOps(v, bindings, t);
      if ops.Err? {
        return Err(ops.error);
      }
      BoundSnoc(bindings0, name, body, ops.value);
      if ops.value != [] {
        bindings := bindings[name := BoundOps(bindings, name) + ops.value];
      }
      body := body + ops.value;
      open := NextOpen(open, t);
      j := j + 1;
    }
    assert BodyFrom(v, bindings0, name, tokens, j, open, body) == Ok((j, body));
    r := Ok((if j < |tokens| then j + 1 else j, bindings));
  }

  /** The splice of `use`: the included tokens, then the old ones without `use` pairs. */
  method SpliceUse(included: seq<Token>, temp: seq<Token>) returns (tokens: seq<Token>)
    ensures tokens == included + StripUse(temp)
  {
    tokens := included;
    var k := 0;
    while k < |temp|
      invariant k <= |temp|
      invariant tokens == included + StripUseUpTo(temp, k)
    {
      if !Dropped(temp, k) {
        tokens := tokens + [temp[k]];
      }
      k := k + 1;
    }
  }

  /** `parse_tokens_as_operations`. */
  method ParseTokensAsOperations(v: Vocabulary, files: Files, fuel: nat, tokens0: seq<Token>)
    returns (r: Result<seq<Operation>, ParseError>)
    ensures r == Parse(v, files, fuel, tokens0)
  {
    var tokens := tokens0;
    var program: seq<Operation> := [];
    var bindings: Bindings := map[];
    var restarts := fuel;
    var i: nat := 0;
    while i < |tokens|
      invariant i <= |tokens|
      invariant ParseFrom(v, files, restarts, tokens, i, program, bindings) == Parse(v, files, fuel, tokens0)
      decreases restarts, |tokens| - i
    {
      var token := tokens[i];
      if token.kind == WordToken && token.stringValue == "bind" {
        var bound := ParseBinding(v, tokens, i, bindings);
        if bound.Err? {
          return Err(bound.error);
        }
        i, bindings := bound.value.0, bound.value.1;
      } else if token.kind == WordToken && token.stringValue == "use" {
        if i + 1 == |tokens| {
          return Err(UnfinishedUse(token.loc));
        }
        var pathTok := tokens[i + 1];
        if pathTok.kind != StringToken {
          return Err(UsePathNotString(pathTok.loc, pathTok.kind));
        }
        if pathTok.stringValue !in files {
          return Err(FileNotFound(pathTok.stringValue));
        }
        if restarts == 0 {
          return Err(UseFuelExhausted);
        }
        tokens := SpliceUse(files[pathTok.stringValue], tokens);
        restarts := restarts - 1;
        i := 0;
        program := [];
      } else {
        var ops := TokenOps(v, bindings, token);
        if ops.Err? {
          return Err(ops.error);
        }
        program := program + ops.value;
        i := i + 1;
      }
    }
    r := Ok(program);
  }

  // ---------------------------------------------------------------------------------
  // `use` splicing

  lemma {:induction false} StripUseUpToDropsUse(ts: seq<Token>, n: nat)
    requires n <= |ts|
    ensures forall t :: t in StripUseUpTo(ts, n) ==> !IsUseWord(t)
  {
    if n > 0 {
      StripUseUpToDropsUse(ts, n - 1);
    }
  }

  /** No `use` word (of a non-string token) survives the splice. */
  lemma StripUseRemovesUse(ts: seq<Token>)
    ensures forall t :: t in StripUse(ts) ==> !IsUseWord(t)
  {
    StripUseUpToDropsUse(ts, |ts|);
  }

  lemma {:induction false} StripUseUpToWithoutUse(ts: seq<Token>, n: nat)
    requires n <= |ts|
    requires forall k :: 0 <= k < |ts| ==> !IsUseWord(ts[k])
    ensures StripUseUpTo(ts, n) == ts[..n]
  {
    if n > 0 {
      StripUseUpToWithoutUse(ts, n - 1);
      assert ts[..n] == ts[..n - 1] + [ts[n - 1]];
    }
  }

  /** A stream without `use` words is kept whole. */
  lemma StripUseWithoutUse(ts: seq<Token>)
    requires forall k :: 0 <= k < |ts| ==> !IsUseWord(ts[k])
    ensures StripUse(ts) == ts
  {
    StripUseUpToWithoutUse(ts, |ts|);
  }

  // ---------------------------------------------------------------------------------
  // Where a binding's body ends

  /** The count of open blocks when the body loop, started at `start`, reaches `k`. */
  function OpenAt(tokens: seq<Token>, start: nat, k: nat): nat
    requires start <= k <= |tokens|
    decreases k - start
  {
    if k == start then 0 else NextOpen(OpenAt(tokens, start, k - 1), tokens[k - 1])
  }

  /** The ops of a run of body tokens, in order. */
  function BodyOps(v: Vocabulary, bindings: Bindings, ts: seq<Token>): Result<seq<Operation>, ParseError>
  {
    if ts == [] then Ok([])
    else
      var ops :- BodyTokenOps(v, bindings, ts[0]);
      var rest :- BodyOps(v, bindings, ts[1..]);
      Ok(ops + rest)
  }

  lemma {:induction false} BodyFromStops(v: Vocabulary, bindings: Bindings, name: string, tokens: seq<Token>,
                                         start: nat, j: nat, body: seq<Operation>)
    requires start <= j <= |tokens|
    ensures var r := BodyFrom(v, bindings, name, tokens, j, OpenAt(tokens, start, j), body);
            r.Ok? ==>
              (forall k :: j <= k < r.value.0 ==>
                 !Closes(OpenAt(tokens, start, k), tokens[k]) && tokens[k].stringValue != name) &&
              (r.value.0 < |tokens| ==> Closes(OpenAt(tokens, start, r.value.0), tokens[r.value.0]))
    decreases |tokens| - j
  {
    var open := OpenAt(tokens, start, j);
    if j == |tokens| || Closes(open, tokens[j]) {
      assert BodyFrom(v, bindings, name, tokens, j, open, body) == Ok((j, body));
    } else {
      var t := tokens[j];
      BodyFromStep(v, bindings, name, tokens, j, open, body);
      if t.stringValue != name && BodyTokenOps(v, bindings, t).Ok? {
        var ops := BodyTokenOps(v, bindings, t).value;
        assert OpenAt(tokens, start, j + 1) == NextOpen(open, t);
        BodyFromStops(v, bindings, name, tokens, start, j + 1, body + ops);
        var r := BodyFrom(v, bindings, name, tokens, j + 1, NextOpen(open, t), body + ops);
        if r.Ok? {
          forall k | j <= k < r.value.0
            ensures !Closes(OpenAt(tokens, start, k), tokens[k]) && tokens[k].stringValue != name
          {
            if k == j {
              assert OpenAt(tokens, start, k) == open;
            }
          }
        }
      }
    }
  }

  lemma BodyOpsCons(v: Vocabulary, bindings: Bindings, ts: seq<Token>)
    requires ts != [] && BodyTokenOps(v, bindings, ts[0]).Ok?
    ensures BodyOps(v, bindings, ts).Ok? <==> BodyOps(v, bindings, ts[1..]).Ok?
    ensures BodyOps(v, bindings, ts).Ok? ==>
              BodyOps(v, bindings, ts).value
              == BodyTokenOps(v, bindings, ts[0]).value + BodyOps(v, bindings, ts[1..]).value
  {
  }

  lemma {:induction false} BodyFromOps(v: Vocabulary, bindings: Bindings, name: string, tokens: seq<Token>,
                                       j: nat, open: nat, body: seq<Operation>)
    requires j <= |tokens|
    ensures var r := BodyFrom(v, bindings, name, tokens, j, open, body);
            r.Ok? ==>
              BodyOps(v, bindings, tokens[j..r.value.0]).Ok? &&
              r.value.1 == body + BodyOps(v, bindings, tokens[j..r.value.0]).value
    decreases |tokens| - j
  {
    if j == |tokens| || Closes(open, tokens[j]) {
      assert BodyFrom(v, bindings, name, tokens, j, open, body) == Ok((j, body));
      assert tokens[j..j] == [];
      assert body + [] == body;
    } else {
      var t := tokens[j];
      BodyFromStep(v, bindings, name, tokens, j, open, body);
      if t.stringValue != name && BodyTokenOps(v, bindings, t).Ok? {
        var ops := BodyTokenOps(v, bindings, t).value;
        BodyFromOps(v, bindings, name, tokens, j + 1, NextOpen(open, t), body + ops);
        var r := BodyFrom(v, bindings, name, tokens, j + 1, NextOpen(open, t), body + ops);
        if r.Ok? {
          var e := r.value.0;
          var tail := tokens[j + 1..e];
          assert tokens[j..e][0] == t && tokens[j..e][1..] == tail;
          BodyOpsCons(v, bindings, tokens[j..e]);
          assert (body + ops) + BodyOps(v, bindings, tail).value == body + (ops + BodyOps(v, bindings, tail).value);
        }
      }
    }
  }

  /**
   * The body of `bind name` read from `start` ends at the first token `end` (of any
   * token type) met while no `if`/`while` of the body is open, or at the end of the
   * tokens; no token before it spells the name; the body's ops are exactly those of the
   * tokens before it, in order.
   */
  lemma BindingBody(v: Vocabulary, bindings: Bindings, name: string, tokens: seq<Token>, start: nat)
    requires start <= |tokens|
    requires BodyFrom(v, bindings, name, tokens, start, 0, []).Ok?
    ensures var (e, body) := BodyFrom(v, bindings, name, tokens, start, 0, []).value;
            (forall k :: start <= k < e ==>
               !Closes(OpenAt(tokens, start, k), tokens[k]) && tokens[k].stringValue != name) &&
            (e < |tokens| ==> tokens[e].stringValue == "end" && OpenAt(tokens, start, e) == 0) &&
            BodyOps(v, bindings, tokens[start..e]) == Ok(body)
  {
    BodyFromStops(v, bindings, name, tokens, start, start, []);
    BodyFromOps(v, bindings, name, tokens, start, 0, []);
    var (e, body) := BodyFrom(v, bindings, name, tokens, start, 0, []).value;
    assert [] + BodyOps(v, bindings, tokens[start..e]).value == BodyOps(v, bindings, tokens[start..e]).value;
  }

  /**
   * Binding a name appends to whatever it was bound to before; the key appears only
   * once it holds an op; every other name keeps its ops.
   */
  lemma BoundAppends(bindings: Bindings, name: string, body: seq<Operation>)
    ensures BoundOps(Bound(bindings, name, body), name) == BoundOps(bindings, name) + body
    ensures name in Bound(bindings, name, body) <==> name in bindings || body != []
    ensures forall w :: w != name ==>
              ((w in Bound(bindings, name, body) <==> w in bindings) &&
               BoundOps(Bound(bindings, name, body), w) == BoundOps(bindings, w))
  {
    if body == [] {
      assert BoundOps(bindings, name) + body == BoundOps(bindings, name);
    }
  }

  // ---------------------------------------------------------------------------------
  // Streams without `bind` and `use`

  predicate IsDirective(t: Token) { t.kind == WordToken && (t.stringValue == "bind" || t.stringValue == "use") }

  /** Reference reading: each token's ops in order, failing at the first token that fails. */
  function PlainOps(v: Vocabulary, bindings: Bindings, ts: seq<Token>): Result<seq<Operation>, ParseError>
  {
    if ts == [] then Ok([])
    else
      var ops :- TokenOps(v, bindings, ts[0]);
      var rest :- PlainOps(v, bindings, ts[1..]);
      Ok(ops + rest)
  }

  function Prefixed(program: seq<Operation>, r: Result<seq<Operation>, ParseError>): Result<seq<Operation>, ParseError>
  {
    match r
    case Ok(ops) => Ok(program + ops)
    case Err(e) => Err(e)
  }

  lemma PrefixedEmpty(r: Result<seq<Operation>, ParseError>)
    ensures Prefixed([], r) == r
  {
    if r.Ok? {
      assert [] + r.value == r.value;
    }
  }

  lemma {:induction false} ParsePlainFrom(v: Vocabulary, files: Files, fuel: nat, tokens: seq<Token>, i: nat,
                                          program: seq<Operation>, bindings: Bindings)
    requires i <= |tokens|
    requires forall k :: i <= k < |tokens| ==> !IsDirective(tokens[k])
    ensures ParseFrom(v, files, fuel, tokens, i, program, bindings)
            == Prefixed(program, PlainOps(v, bindings, tokens[i..]))
    decreases |tokens| - i
  {
    if i == |tokens| {
      assert tokens[i..] == [];
      assert program + [] == program;
    } else {
      var t := tokens[i];
      assert tokens[i..][0] == t && tokens[i..][1..] == tokens[i + 1..];
      assert !IsDirective(t);
      match TokenOps(v, bindings, t)
      case Err(e) =>
      case Ok(ops) =>
        ParsePlainFrom(v, files, fuel, tokens, i + 1, program + ops, bindings);
        match PlainOps(v, bindings, tokens[i + 1..])
        case Err(e) =>
        case Ok(rest) =>
          assert (program + ops) + rest == program + (ops + rest);
    }
  }

  /** Without `bind` and `use`, the program is the tokens' ops in order. */
  lemma ParsePlain(v: Vocabulary, files: Files, fuel: nat, tokens: seq<Token>)
    requires forall k :: 0 <= k < |tokens| ==> !IsDirective(tokens[k])
    ensures Parse(v, files, fuel, tokens) == PlainOps(v, map[], tokens)
  {
    ParsePlainFrom(v, files, fuel, tokens, 0, [], map[]);
    assert tokens[0..] == tokens;
    PrefixedEmpty(PlainOps(v, map[], tokens));
  }

  /**
   * Literal tokens give one op each, in order: an integer pushes its value, a string
   * pushes its unescaped text, and (in wis.cpp) a character pushes its byte.
   */
  lemma {:induction false} PlainOpsOfLiterals(v: Vocabulary, bindings: Bindings, ts: seq<Token>)
    requires forall k :: 0 <= k < |ts| ==> ts[k].kind != WordToken
    requires PlainOps(v, bindings, ts).Ok?
    ensures var ops := PlainOps(v, bindings, ts).value;
            |ops| == |ts| &&
            forall k :: 0 <= k < |ts| ==>
              ops[k].loc == ts[k].loc && ops[k].jumpTo == 0 &&
              (ts[k].kind == IntToken ==> ops[k] == PushIntOp(ts[k].intValue, ts[k].loc)) &&
              (ts[k].kind == StringToken ==>
                 ops[k].kind == PushString && Unescaped(ts[k].stringValue) == Some(ops[k].stringValue)) &&
              (ts[k].kind == CharToken ==> v.dialect == Wis && ops[k].kind == PushInt)
  {
    if ts != [] {
      assert forall k :: 0 <= k < |ts[1..]| ==> ts[1..][k] == ts[k + 1];
      PlainOpsOfLiterals(v, bindings, ts[1..]);
      var first := TokenOps(v, bindings, ts[0]).value;
      var rest := PlainOps(v, bindings, ts[1..]).value;
      assert |first| == 1;
      var ops := PlainOps(v, bindings, ts).value;
      assert ops == first + rest;
      assert forall k :: 1 <= k < |ts| ==> ops[k] == rest[k - 1];
    }
  }

  // ---------------------------------------------------------------------------------
  // The program is not yet cross-referenced

  predicate Unlinked(ops: seq<Operation>) { forall k :: 0 <= k < |ops| ==> ops[k].jumpTo == 0 }

  predicate BindingsUnlinked(bindings: Bindings) { forall w :: w in bindings ==> Unlinked(bindings[w]) }

  lemma TokenOpsUnlinked(v: Vocabulary, bindings: Bindings, t: Token)
    requires BindingsUnlinked(bindings)
    ensures TokenOps(v, bindings, t).Ok? ==> Unlinked(TokenOps(v, bindings, t).value)
    ensures BodyTokenOps(v, bindings, t).Ok? ==> Unlinked(BodyTokenOps(v, bindings, t).value)
  {
  }

  lemma {:induction false} BodyFromUnlinked(v: Vocabulary, bindings: Bindings, name: string, tokens: seq<Token>,
                                            j: nat, open: nat, body: seq<Operation>)
    requires j <= |tokens| && BindingsUnlinked(bindings) && Unlinked(body)
    requires BodyFrom(v, bindings, name, tokens, j, open, body).Ok?
    ensures Unlinked(BodyFrom(v, bindings, name, tokens, j, open, body).value.1)
    decreases |tokens| - j
  {
    if j < |tokens| && !Closes(open, tokens[j]) {
      var t := tokens[j];
      TokenOpsUnlinked(v, bindings, t);
      var ops := BodyTokenOps(v, bindings, t).value;
      BodyFromUnlinked(v, bindings, name, tokens, j + 1, NextOpen(open, t), body + ops);
    }
  }

  lemma {:induction false} ParseFromUnlinked(v: Vocabulary, files: Files, fuel: nat, tokens: seq<Token>, i: nat,
                                             program: seq<Operation>, bindings: Bindings)
    requires i <= |tokens| && Unlinked(program) && BindingsUnlinked(bindings)
    requires ParseFrom(v, files, fuel, tokens, i, program, bindings).Ok?
    ensures Unlinked(ParseFrom(v, files, fuel, tokens, i, program, bindings).value)
    decreases fuel, |tokens| - i
  {
    if i < |tokens| {
      var t := tokens[i];
      if t.kind == WordToken && t.stringValue == "bind" {
        var name := tokens[i + 1].stringValue;
        BodyFromUnlinked(v, bindings, name, tokens, i + 2, 0, []);
        var (next, bindings') := BindAt(v, bindings, tokens, i).value;
        ParseFromUnlinked(v, files, fuel, tokens, next, program, bindings');
      } else if t.kind == WordToken && t.stringValue == "use" {
        var p := tokens[i + 1].stringValue;
        ParseFromUnlinked(v, files, fuel - 1, files[p] + StripUse(tokens), 0, [], bindings);
      } else {
        TokenOpsUnlinked(v, bindings, t);
        var ops := TokenOps(v, bindings, t).value;
        ParseFromUnlinked(v, files, fuel, tokens, i + 1, program + ops, bindings);
      }
    }
  }

  /** Every op the parser emits still has `JumpTo` 0: cross-referencing is a later pass. */
  lemma ParseUnlinked(v: Vocabulary, files: Files, fuel: nat, tokens: seq<Token>)
    requires Parse(v, files, fuel, tokens).Ok?
    ensures Unlinked(Parse(v, files, fuel, tokens).value)
  {
    ParseFromUnlinked(v, files, fuel, tokens, 0, [], map[]);
  }
}
