/**
 The migration linter's splitter and matcher (scripts/check_migrations.py, `split` and `parens`), over
 token lists. Exceptions are failures.
 */
module MigrationTokens {
  import opened Wrappers

  type Token = string

  function Weight(t: Token): int { if t == "(" then 1 else if t == ")" then -1 else 0 }

  function Depth(items: seq<Token>): int {
    if items == [] then 0 else Depth(items[..|items| - 1]) + Weight(items[|items| - 1])
  }

  /** Every prefix opens at least as much as it closes. */
  predicate NeverNegative(items: seq<Token>) {
    forall n | 0 <= n <= |items| :: Depth(items[..n]) >= 0
  }

  predicate Balanced(items: seq<Token>) { NeverNegative(items) && Depth(items) == 0 }

  predicate Plain(d: Token) { Weight(d) == 0 }

  lemma {:induction false} DepthSum(a: seq<Token>, b: seq<Token>)
    ensures Depth(a + b) == Depth(a) + Depth(b)
  {
    if b == [] {
      assert a + b == a;
    } else {
      assert (a + b)[..|a + b| - 1] == a + b[..|b| - 1];
      DepthSum(a, b[..|b| - 1]);
    }
  }

  /** Depth is how many parentheses are open: those opened less those closed. */
  lemma {:induction false} DepthCountsParentheses(items: seq<Token>)
    ensures Depth(items) + multiset(items)[")"] == multiset(items)["("]
  {
    if items != [] {
      var init := items[..|items| - 1];
      assert items == init + [items[|items| - 1]];
      DepthCountsParentheses(init);
    }
  }

  // ---- Splitting as a function --------------------------------------------------------------------

  datatype Scan = Scan(pieces: seq<seq<Token>>, current: seq<Token>)

  /** The finished pieces and the piece being read, after these items. */
  function ScanOf(items: seq<Token>, d: Token): Scan {
    if items == [] then Scan([], [])
    else
      var s, t := ScanOf(items[..|items| - 1], d), items[|items| - 1];
      if t == d && Depth(s.current) == 0 then Scan(s.pieces + [s.current], []) else s.(current := s.current + [t])
  }

  function Pieces(items: seq<Token>, d: Token): seq<seq<Token>> {
    var s := ScanOf(items, d);
    if s.current == [] then s.pieces else s.pieces + [s.current]
  }

  /** The depth of the piece being read never goes negative and ends at zero. */
  predicate Splits(items: seq<Token>, d: Token) {
    Scannable(items, d) && Depth(ScanOf(items, d).current) == 0
  }

  predicate Scannable(items: seq<Token>, d: Token) {
    forall n | 0 <= n <= |items| :: Depth(ScanOf(items[..n], d).current) >= 0
  }

  lemma ScannableMore(a: seq<Token>, t: Token, d: Token)
    ensures Scannable(a + [t], d) <==> Scannable(a, d) && Depth(ScanOf(a + [t], d).current) >= 0
  {
    hide Depth, ScanOf;
    PrefixesOfLonger(a, t);
    var more := a + [t];
    assert more[..|a| + 1] == more;
    if Scannable(more, d) {
      forall n | 0 <= n <= |a| ensures Depth(ScanOf(a[..n], d).current) >= 0 { assert more[..n] == a[..n]; }
    }
  }

  /** A prefix that fails makes the whole fail. */
  lemma ScannablePrefix(items: seq<Token>, i: nat, d: Token)
    requires i <= |items|
    ensures Scannable(items, d) ==> Scannable(items[..i], d)
  {
    hide Depth, ScanOf;
    forall n | 0 <= n <= i ensures items[..i][..n] == items[..n] {}
  }

  lemma ScanStep(items: seq<Token>, i: nat, d: Token)
    requires i < |items|
    ensures var s, t := ScanOf(items[..i], d), items[i];
            ScanOf(items[..i + 1], d) == if t == d && Depth(s.current) == 0 then Scan(s.pieces + [s.current], [])
                                         else s.(current := s.current + [t])
    ensures Depth(ScanOf(items[..i], d).current + [items[i]]) == Depth(ScanOf(items[..i], d).current) + Weight(items[i])
  {
    assert items[..i + 1][..i] == items[..i];
    OneMoreDepth(ScanOf(items[..i], d).current, items[i]);
  }

  lemma OneMoreDepth(a: seq<Token>, t: Token)
    ensures Depth(a + [t]) == Depth(a) + Weight(t)
  {
    assert (a + [t])[..|a|] == a;
  }

  lemma {:induction false} CurrentDepth(items: seq<Token>, d: Token)
    requires Plain(d)
    ensures Depth(ScanOf(items, d).current) == Depth(items)
  {
    if items != [] {
      var init, t := items[..|items| - 1], items[|items| - 1];
      CurrentDepth(init, d);
      DepthSum(ScanOf(init, d).current, [t]);
      assert [t][..0] == [];
    }
  }

  /** With a delimiter that is not a parenthesis, splitting succeeds exactly on balanced input. */
  lemma SplitsIffBalanced(items: seq<Token>, d: Token)
    requires Plain(d)
    ensures Splits(items, d) <==> Balanced(items)
  {
    forall n | 0 <= n <= |items| ensures Depth(ScanOf(items[..n], d).current) == Depth(items[..n]) {
      CurrentDepth(items[..n], d);
    }
    assert items[..|items|] == items;
  }

  // ---- What the pieces are -------------------------------------------------------------------------

  /** Nowhere outside parentheses does the delimiter occur. */
  predicate NoDelimiter(items: seq<Token>, d: Token) {
    forall n | 0 <= n < |items| :: !(items[n] == d && Depth(items[..n]) == 0)
  }

  predicate Piece(items: seq<Token>, d: Token) { Balanced(items) && NoDelimiter(items, d) }

  /** The pieces, each followed by the delimiter. */
  function Terminated(pieces: seq<seq<Token>>, d: Token): seq<Token> {
    if pieces == [] then [] else pieces[0] + [d] + Terminated(pieces[1..], d)
  }

  lemma {:induction false} TerminatedOneMore(pieces: seq<seq<Token>>, p: seq<Token>, d: Token)
    ensures Terminated(pieces + [p], d) == Terminated(pieces, d) + p + [d]
  {
    if pieces == [] {
      assert [p][1..] == [] && Terminated([], d) == [];
      assert [] + [p] == [p];
    } else {
      assert (pieces + [p])[1..] == pieces[1..] + [p];
      TerminatedOneMore(pieces[1..], p, d);
    }
  }

  lemma PrefixesOfLonger(a: seq<Token>, t: Token)
    ensures forall n | 0 <= n <= |a| :: (a + [t])[..n] == a[..n]
  {
  }

  /** Reading on: the finished pieces are pieces, the current one is a piece so far, and nothing is lost. */
  lemma {:induction false} ScanFacts(items: seq<Token>, d: Token)
    requires Plain(d) && NeverNegative(items)
    ensures var s := ScanOf(items, d);
            && (forall p | p in s.pieces :: Piece(p, d))
            && NeverNegative(s.current) && NoDelimiter(s.current, d)
            && items == Terminated(s.pieces, d) + s.current
  {
    hide Terminated, ScanOf, Depth;
    NothingScanned(d);
    if items == [] {
      assert Terminated([], d) == [] by { TerminatedNone(d); }
    } else {
      var init, t := items[..|items| - 1], items[|items| - 1];
      forall n | 0 <= n <= |init| ensures Depth(init[..n]) >= 0 { assert init[..n] == items[..n]; }
      ScanFacts(init, d);
      CurrentDepth(items, d);
      assert items == init + [t] && items[..|items|] == items;
      ScanStep(items, |init|, d);
      var s := ScanOf(init, d);
      if t == d && Depth(s.current) == 0 {
        TerminatedOneMore(s.pieces, s.current, d);
      } else {
        OneTokenMore(s.current, t, d);
      }
    }
  }

  lemma TerminatedNone(d: Token)
    ensures Terminated([], d) == []
  {
  }

  lemma OneTokenMore(a: seq<Token>, t: Token, d: Token)
    requires NeverNegative(a) && NoDelimiter(a, d) && Depth(a + [t]) >= 0 && !(t == d && Depth(a) == 0)
    ensures NeverNegative(a + [t]) && NoDelimiter(a + [t], d)
  {
    PrefixesOfLonger(a, t);
    assert (a + [t])[..|a| + 1] == a + [t] && a[..|a|] == a;
    forall n | 0 <= n < |a + [t]| ensures !((a + [t])[n] == d && Depth((a + [t])[..n]) == 0) {
      if n < |a| { assert (a + [t])[n] == a[n]; }
    }
  }

  /** The input ends with the delimiter, or is empty: no piece is left open. */
  predicate EndsDelimited(items: seq<Token>, d: Token) { items == [] || items[|items| - 1] == d }

  /**
   Splitting balanced input: each piece is balanced with no delimiter outside parentheses, and writing the
   pieces back with delimiters between them gives the input, up to one trailing delimiter.
   */
  lemma PiecesJoinBack(items: seq<Token>, d: Token)
    requires Plain(d) && Balanced(items)
    ensures forall p | p in Pieces(items, d) :: Piece(p, d)
    ensures EndsDelimited(items, d) ==> items == Terminated(Pieces(items, d), d)
    ensures !EndsDelimited(items, d) ==> items + [d] == Terminated(Pieces(items, d), d)
  {
    ScanFacts(items, d);
    CurrentDepth(items, d);
    var s := ScanOf(items, d);
    if s.current != [] { TerminatedOneMore(s.pieces, s.current, d); }
    if items != [] {
      CurrentDepth(items[..|items| - 1], d);
      if items[|items| - 1] == d { DepthSum(items[..|items| - 1], [d]); LastIsDelimiter(items, d); }
    }
  }

  lemma LastIsDelimiter(items: seq<Token>, d: Token)
    requires Plain(d) && Balanced(items) && items != [] && items[|items| - 1] == d
    ensures ScanOf(items, d).current == []
  {
    var init := items[..|items| - 1];
    assert items == init + [d];
    DepthSum(init, [d]);
    assert [d][..0] == [];
    CurrentDepth(init, d);
  }

  /** Two readings of one text have the same pieces and the same rest. */
  lemma {:induction false} ReadOneWay(a: seq<seq<Token>>, x: seq<Token>, b: seq<seq<Token>>, y: seq<Token>, d: Token)
    requires (forall p | p in a :: Piece(p, d)) && NoDelimiter(x, d)
    requires (forall p | p in b :: Piece(p, d)) && NoDelimiter(y, d)
    requires Terminated(a, d) + x == Terminated(b, d) + y
    ensures a == b && x == y
  {
    if a == [] || b == [] {
      assert a == [] ==> Terminated(a, d) + x == x;
      assert b == [] ==> Terminated(b, d) + y == y;
      if a != [] { HasDelimiter(a, x, d); }
      if b != [] { HasDelimiter(b, y, d); }
    } else {
      var text := Terminated(a, d) + x;
      DelimiterInside(a, x, d);
      DelimiterInside(b, y, d);
      FirstPieceFixed(a[0], b[0], text, d);
      ReadOneWay(a[1..], x, b[1..], y, d);
      assert a == [a[0]] + a[1..] && b == [b[0]] + b[1..];
    }
  }

  lemma HasDelimiter(a: seq<seq<Token>>, x: seq<Token>, d: Token)
    requires a != [] && forall p | p in a :: Piece(p, d)
    ensures !NoDelimiter(Terminated(a, d) + x, d)
  {
    DelimiterInside(a, x, d);
    assert a[0] in a;
  }

  lemma DelimiterInside(a: seq<seq<Token>>, x: seq<Token>, d: Token)
    requires a != []
    ensures var text := Terminated(a, d) + x;
            |a[0]| < |text| && text[..|a[0]|] == a[0] && text[|a[0]|] == d
            && text[|a[0]| + 1..] == Terminated(a[1..], d) + x
  {
    var rest := Terminated(a[1..], d) + x;
    assert Terminated(a, d) == a[0] + [d] + Terminated(a[1..], d);
    hide Terminated;
    assert Terminated(a, d) + x == a[0] + ([d] + rest);
    FirstOf(a[0], d, rest);
  }

  lemma FirstOf(p: seq<Token>, d: Token, rest: seq<Token>)
    ensures var text := p + ([d] + rest); text[..|p|] == p && text[|p|] == d && text[|p| + 1..] == rest
  {
  }

  /** The first delimiter outside parentheses is where it is. */
  lemma FirstPieceFixed(p: seq<Token>, q: seq<Token>, text: seq<Token>, d: Token)
    requires Piece(p, d) && Piece(q, d) && |p| < |text| && |q| < |text|
    requires text[..|p|] == p && text[|p|] == d && text[..|q|] == q && text[|q|] == d
    ensures p == q
  {
    if |p| < |q| { EarlierDelimiter(p, q, text, d); } else if |q| < |p| { EarlierDelimiter(q, p, text, d); }
  }

  lemma EarlierDelimiter(p: seq<Token>, q: seq<Token>, text: seq<Token>, d: Token)
    requires Balanced(p) && |p| < |q| < |text| && text[..|p|] == p && text[|p|] == d && text[..|q|] == q
    ensures !NoDelimiter(q, d)
  {
    assert q[..|p|] == p && q[|p|] == text[|p|];
  }

  /** The other round trip: any pieces, the last one not empty, come back from their joined text. */
  lemma SplitOfJoined(pieces: seq<seq<Token>>, last: seq<Token>, d: Token)
    requires Plain(d) && (forall p | p in pieces :: Piece(p, d)) && Piece(last, d) && last != []
    ensures var text := Terminated(pieces, d) + last;
            Balanced(text) && Pieces(text, d) == pieces + [last]
  {
    var text := Terminated(pieces, d) + last;
    TerminatedBalanced(pieces, d);
    BalancedSum(Terminated(pieces, d), last);
    ScanFacts(text, d);
    var s := ScanOf(text, d);
    ReadOneWay(pieces, last, s.pieces, s.current, d);
  }

  lemma BalancedSum(a: seq<Token>, b: seq<Token>)
    requires Balanced(a) && Balanced(b)
    ensures Balanced(a + b)
  {
    DepthSum(a, b);
    forall n | 0 <= n <= |a + b| ensures Depth((a + b)[..n]) >= 0 {
      if n <= |a| {
        assert (a + b)[..n] == a[..n];
      } else {
        assert (a + b)[..n] == a + b[..n - |a|];
        DepthSum(a, b[..n - |a|]);
      }
    }
  }

  lemma PlainBalanced(d: Token)
    requires Plain(d)
    ensures Balanced([d])
  {
    assert [d][..0] == [] && [d][..1] == [d] && Depth([]) == 0;
    assert Depth([d]) == Depth([d][..0]) + Weight(d);
  }

  lemma {:induction false} TerminatedBalanced(pieces: seq<seq<Token>>, d: Token)
    requires Plain(d) && forall p | p in pieces :: Piece(p, d)
    ensures Balanced(Terminated(pieces, d))
  {
    if pieces != [] {
      assert Piece(pieces[0], d);
      PlainBalanced(d);
      BalancedSum(pieces[0], [d]);
      TerminatedBalanced(pieces[1..], d);
      BalancedSum(pieces[0] + [d], Terminated(pieces[1..], d));
    }
  }

  // ---- Matching a parenthesis ---------------------------------------------------------------------

  /** The place after the token that brings the depth to zero, reading on from `k` at `depth`. */
  function CloseFrom(t: seq<Token>, k: nat, depth: int): (r: Option<nat>)
    ensures r.Some? ==> k < r.value <= |t|
    decreases |t| - k
  {
    if k >= |t| then None
    else if depth + Weight(t[k]) == 0 then Some(k + 1)
    else CloseFrom(t, k + 1, depth + Weight(t[k]))
  }

  /** `end` is just past the parenthesis that matches the one at `start`. */
  ghost predicate Matches(t: seq<Token>, start: nat, end: nat) {
    start + 1 < end <= |t| && t[start] == "(" && t[end - 1] == ")" && Balanced(t[start + 1..end - 1])
  }

  function ParensEnd(t: seq<Token>, start: nat): (r: Option<nat>)
    ensures r.Some? ==> start + 1 < r.value <= |t|
  {
    if start < |t| && t[start] == "(" then CloseFrom(t, start + 1, 1) else None
  }

  lemma {:induction false} CloseFromFacts(t: seq<Token>, start: nat, k: nat, depth: int)
    requires start < k <= |t| && NeverNegative(t[start + 1..k]) && depth == 1 + Depth(t[start + 1..k])
    ensures match CloseFrom(t, k, depth)
            case None => NeverNegative(t[start + 1..])
            case Some(end) => k < end <= |t| && t[end - 1] == ")" && Balanced(t[start + 1..end - 1])
    decreases |t| - k
  {
    hide Depth;
    var a := t[start + 1..k];
    if k == |t| {
      assert a == t[start + 1..];
    } else {
      assert t[start + 1..k + 1] == a + [t[k]];
      assert a[..|a|] == a;
      OneMoreDepth(a, t[k]);
      if depth + Weight(t[k]) != 0 {
        NeverNegativeNext(a, t[k]);
        CloseFromFacts(t, start, k + 1, depth + Weight(t[k]));
      }
    }
  }

  lemma NeverNegativeNext(a: seq<Token>, t: Token)
    requires NeverNegative(a) && Depth(a + [t]) >= 0
    ensures NeverNegative(a + [t])
  {
    PrefixesOfLonger(a, t);
    assert (a + [t])[..|a| + 1] == a + [t];
  }

  lemma MatchIsUnique(t: seq<Token>, start: nat, end: nat, end': nat)
    requires Matches(t, start, end) && Matches(t, start, end')
    ensures end == end'
  {
    if end < end' {
      ShorterMatch(t, start, end, end' - 1);
    } else if end' < end {
      ShorterMatch(t, start, end', end - 1);
    }
  }

  /** Past a match the depth is below zero, so no longer stretch is balanced. */
  lemma ShorterMatch(t: seq<Token>, start: nat, end: nat, end': nat)
    requires Matches(t, start, end) && end <= end' <= |t|
    ensures !NeverNegative(t[start + 1..end'])
  {
    var long := t[start + 1..end'];
    assert t[start + 1..end] == t[start + 1..end - 1] + [t[end - 1]];
    assert long[..end - start - 1] == t[start + 1..end];
    DepthSum(t[start + 1..end - 1], [t[end - 1]]);
    assert [t[end - 1]][..0] == [];
  }

  /** The matcher finds the one matching parenthesis, and fails exactly when there is none. */
  lemma ParensFindsTheMatch(t: seq<Token>, start: nat, end: nat)
    ensures ParensEnd(t, start) == Some(end) <==> Matches(t, start, end)
  {
    if start < |t| && t[start] == "(" {
      assert t[start + 1..start + 1] == [] && t[start + 1..|t|] == t[start + 1..];
      CloseFromFacts(t, start, start + 1, 1);
      if Matches(t, start, end) {
        match CloseFrom(t, start + 1, 1) {
          case None => ShorterMatch(t, start, end, |t|);
          case Some(e) => MatchIsUnique(t, start, end, e);
        }
      }
    }
  }

  // ---- The code --------------------------------------------------------------------------------------

  method Split(items: seq<Token>, delimiter: Token) returns (r: Result<seq<seq<Token>>, string>)
    ensures r.Success? <==> Splits(items, delimiter)
    ensures r.Success? ==> r.value == Pieces(items, delimiter)
  {
    hide ScanOf, Depth;
    var result: seq<seq<Token>>, current: seq<Token>, depth := [], [], 0;
    NothingScanned(delimiter);
    for i := 0 to |items|
      invariant ScanOf(items[..i], delimiter) == Scan(result, current) && depth == Depth(current)
      invariant Scannable(items[..i], delimiter)
    {
      var token := items[i];
      assert items[..i + 1] == items[..i] + [token];
      ScannableMore(items[..i], token, delimiter);
      ScannablePrefix(items, i + 1, delimiter);
      ScanStep(items, i, delimiter);
      if token == delimiter && depth == 0 {
        result := result + [current];
        current := [];
        NothingScanned(delimiter);
        continue;
      }
      current := current + [token];
      depth := depth + Weight(token);
      if depth < 0 { return Failure("Unbalanced parentheses"); }
    }
    assert items[..|items|] == items;
    if depth != 0 { return Failure("Unbalanced parentheses"); }
    if current != [] { result := result + [current]; }
    return Success(result);
  }

  lemma NothingScanned(d: Token)
    ensures ScanOf([], d) == Scan([], []) && Depth([]) == 0 && Scannable([], d)
  {
  }

  method Parens(t: seq<Token>, start: nat) returns (r: Result<(seq<Token>, nat), string>)
    ensures match ParensEnd(t, start)
            case None => r.Failure?
            case Some(end) => start + 1 < end <= |t| && r == Success((t[start + 1..end - 1], end))
  {
    if start >= |t| || t[start] != "(" { return Failure("Not at an opening parenthesis"); }
    var depth := 1;
    for end := start + 1 to |t|
      invariant CloseFrom(t, end, depth) == CloseFrom(t, start + 1, 1)
    {
      depth := depth + Weight(t[end]);
      if depth == 0 { return Success((t[start + 1..end], end + 1)); }
    }
    return Failure("Unclosed parentheses");
  }

  /** What a CREATE TABLE body goes through: splitting never fails on what the matcher returned. */
  method SplitParens(t: seq<Token>, start: nat, delimiter: Token) returns (r: Result<seq<seq<Token>>, string>)
    requires Plain(delimiter)
    ensures r.Success? <==> exists end: nat :: Matches(t, start, end)
    ensures forall end: nat | Matches(t, start, end) :: r == Success(Pieces(t[start + 1..end - 1], delimiter))
  {
    var body := Parens(t, start);
    forall end: nat ensures ParensEnd(t, start) == Some(end) <==> Matches(t, start, end) {
      ParensFindsTheMatch(t, start, end);
    }
    if body.Failure? { return Failure(body.error); }
    SplitsIffBalanced(body.value.0, delimiter);
    r := Split(body.value.0, delimiter);
  }
}
