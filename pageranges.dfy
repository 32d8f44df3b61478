/** The page-range resolver: `parse_page_ranges` in src/utils.py, and
    `parse_pages` in scripts/render.py and dev_scripts/render.py, which are
    the same code token for token.  A specification such as "1,3-5,7" is
    resolved against a page count into the ascending list of 1-based pages
    it names, or into the error the first bad token raises. */
module PageRanges {
  import opened Results
  import opened PyText

  /** The `ValueError`s the resolver raises, with what their message names. */
  datatype PageError =
    | NotAnInteger(literal: string)     // `int()` rejected this text
    | InvalidPageRange(token: string)   // "Invalid page range: <token>"
    | InvalidPageNumber(page: int)      // "Invalid page number: <page>"

  predicate StrictlyAscending(s: seq<int>)
  {
    forall i, j :: 0 <= i < j < |s| ==> s[i] < s[j]
  }

  predicate InBounds(s: seq<int>, n: nat)
  {
    forall i :: 0 <= i < |s| ==> 1 <= s[i] <= n
  }

  /** `range(a, b + 1)` as a set. */
  function Span(a: int, b: int): (r: set<int>)
    ensures forall x :: x in r <==> a <= x <= b
    decreases b - a
  {
    if a > b then {} else Span(a, b - 1) + {b}
  }

  /** `list(range(1, n + 1))`. */
  function AllPages(n: nat): seq<int>
  {
    seq(n, i => i + 1)
  }

  /** The pages one trimmed token contributes, or the error it raises.  A
      token holding a `-` is a range, cut at its first `-`. */
  function TokenPages(part: string, n: nat): Result<set<int>, PageError>
  {
    if '-' in part then RangePages(part, IndexOf(part, '-'), n) else NumberPages(part, n)
  }

  /** A range token `a-b`, cut at position `k`: both halves must be
      integers with 1 <= a <= b <= n. */
  function RangePages(part: string, k: nat, n: nat): Result<set<int>, PageError>
    requires k < |part|
  {
    var ta, tb := part[..k], part[k + 1..];
    match ParseInt(ta)
    case None => Err(NotAnInteger(ta))
    case Some(a) =>
      match ParseInt(tb)
      case None => Err(NotAnInteger(tb))
      case Some(b) =>
        if a < 1 || b < 1 || a > n || b > n || a > b then Err(InvalidPageRange(part))
        else Ok(Span(a, b))
  }

  /** A single page number p, which must satisfy 1 <= p <= n. */
  function NumberPages(part: string, n: nat): Result<set<int>, PageError>
  {
    match ParseInt(part)
    case None => Err(NotAnInteger(part))
    case Some(p) => if p < 1 || p > n then Err(InvalidPageNumber(p)) else Ok({p})
  }

  /** What each comma-separated piece contributes, once trimmed. */
  function Tokens(parts: seq<string>, n: nat): (rs: seq<Result<set<int>, PageError>>)
    ensures |rs| == |parts|
    ensures forall j :: 0 <= j < |parts| ==> rs[j] == TokenPages(Strip(parts[j]), n)
  {
    seq(|parts|, j requires 0 <= j < |parts| => TokenPages(Strip(parts[j]), n))
  }

  /** The union of the token results, taken left to right: the first
      failing token decides the error. */
  function Combine(rs: seq<Result<set<int>, PageError>>): Result<set<int>, PageError>
  {
    if rs == [] then Ok({})
    else
      match Combine(rs[..|rs| - 1])
      case Err(e) => Err(e)
      case Ok(s) =>
        match rs[|rs| - 1]
        case Err(e) => Err(e)
        case Ok(t) => Ok(s + t)
  }

  /** The pages of the comma-separated pieces `parts`, or the first error. */
  function Union(parts: seq<string>, n: nat): Result<set<int>, PageError>
  {
    Combine(Tokens(parts, n))
  }

  /** `sorted(s)` for a set of integers. */
  function SortedSeq(s: set<int>): (r: seq<int>)
    ensures StrictlyAscending(r)
    ensures forall x :: x in r <==> x in s
    ensures |r| == |s|
    decreases s
  {
    if s == {} then []
    else
      MinExists(s);
      var m :| IsMin(m, s);
      [m] + SortedSeq(s - {m})
  }

  /** The reference definition of the resolver: all pages when the
      specification is absent or empty, else the sorted union of its tokens. */
  function Resolve(pagesArg: Option<string>, n: nat): Result<seq<int>, PageError>
  {
    if pagesArg.None? || pagesArg.value == "" then Ok(AllPages(n))
    else
      match Union(Split(pagesArg.value, ','), n)
      case Err(e) => Err(e)
      case Ok(s) => Ok(SortedSeq(s))
  }

  /** The resolver as the source runs it: all pages for an absent or empty
      specification, else the pages of its comma-separated pieces, sorted. */
  method ParsePageRanges(pagesArg: Option<string>, numPages: nat) returns (r: Result<seq<int>, PageError>)
    ensures r == Resolve(pagesArg, numPages)
    ensures r.Ok? ==> StrictlyAscending(r.value) && InBounds(r.value, numPages)
  {
    if pagesArg.None? || pagesArg.value == "" {
      r := Ok(AllPages(numPages));
    } else {
      var pages := CollectPages(Split(pagesArg.value, ','), numPages);
      match pages
      case Err(e) => r := Err(e);
      case Ok(s) => r := Ok(SortedSeq(s));
    }
    if r.Ok? {
      ResolveSound(pagesArg, numPages);
    }
  }

  /** The resolver's loop: adds the pages of each trimmed piece to a set,
      stopping at the first piece that raises. */
  method CollectPages(parts: seq<string>, numPages: nat) returns (r: Result<set<int>, PageError>)
    ensures r == Union(parts, numPages)
  {
    var out: set<int> := {};
    ghost var rs := Tokens(parts, numPages);
    for i := 0 to |parts|
      invariant Combine(rs[..i]) == Ok(out)
    {
      var pages := ParseToken(Strip(parts[i]), numPages);
      CombineNext(rs, i);
      if pages.Err? {
        CombineErrorSticks(rs, i + 1);
        return Err(pages.error);
      }
      out := out + pages.value;
    }
    assert rs[..|parts|] == rs;
    r := Ok(out);
  }

  /** The body of the resolver's loop for one trimmed piece: the pages it
      adds to the selection, or the error it raises.  It is the statement
      form, with early returns, of `TokenPages`. */
  method ParseToken(part: string, numPages: nat) returns (r: Result<set<int>, PageError>)
    ensures r == TokenPages(part, numPages)
  {
    if '-' in part {
      r := ParseRange(part, IndexOf(part, '-'), numPages);
    } else {
      r := ParseNumber(part, numPages);
    }
  }

  /** The range branch of that body, the statement form of `RangePages`. */
  method ParseRange(part: string, k: nat, numPages: nat) returns (r: Result<set<int>, PageError>)
    requires k < |part|
    ensures r == RangePages(part, k, numPages)
  {
    var a := ParseInt(part[..k]);
    if a.None? {
      return Err(NotAnInteger(part[..k]));
    }
    var b := ParseInt(part[k + 1..]);
    if b.None? {
      return Err(NotAnInteger(part[k + 1..]));
    }
    if a.value < 1 || b.value < 1 || a.value > numPages || b.value > numPages || a.value > b.value {
      return Err(InvalidPageRange(part));
    }
    r := Ok(Span(a.value, b.value));
  }

  /** The single-number branch, the statement form of `NumberPages`. */
  method ParseNumber(part: string, numPages: nat) returns (r: Result<set<int>, PageError>)
    ensures r == NumberPages(part, numPages)
  {
    var p := ParseInt(part);
    if p.None? {
      return Err(NotAnInteger(part));
    }
    if p.value < 1 || p.value > numPages {
      return Err(InvalidPageNumber(p.value));
    }
    r := Ok({p.value});
  }

  // ---------------------------------------------------------------------
  // Sorting

  predicate IsMin(m: int, s: set<int>)
  {
    m in s && forall y :: y in s ==> m <= y
  }

  lemma {:induction false} MinExists(s: set<int>)
    requires s != {}
    ensures exists m :: IsMin(m, s)
    decreases |s|
  {
    NonEmptyHasMember(s);
    var x :| x in s;
    var t := s - {x};
    if t == {} {
      assert s == {x};
      assert IsMin(x, s);
    } else {
      MinExists(t);
      var m :| IsMin(m, t);
      var k := if x < m then x else m;
      forall y | y in s ensures k <= y {
        if y != x {
          assert y in t;
        }
      }
      assert IsMin(k, s);
    }
  }

  lemma NoMember(s: set<int>)
    requires forall x :: x !in s
    ensures s == {}
  {
    var e: set<int> := {};
    assert forall x :: x in s <==> x in e;
  }

  lemma NonEmptyHasMember(s: set<int>)
    requires s != {}
    ensures exists x :: x in s
  {
    if forall x :: x !in s {
      NoMember(s);
    }
  }

  lemma HeadIn(s: seq<int>)
    requires s != []
    ensures s[0] in s
  {
  }

  lemma {:induction false} AscendingUnique(r1: seq<int>, r2: seq<int>)
    requires StrictlyAscending(r1) && StrictlyAscending(r2)
    requires forall x :: x in r1 <==> x in r2
    ensures r1 == r2
    decreases |r1|
  {
    if r1 != [] {
      HeadIn(r1);
    }
    if r2 != [] {
      HeadIn(r2);
    }
    if r1 != [] && r2 != [] {
      assert r1[0] in r1 && r2[0] in r2;
      var j2 :| 0 <= j2 < |r2| && r2[j2] == r1[0];
      var j1 :| 0 <= j1 < |r1| && r1[j1] == r2[0];
      assert r2[0] <= r2[j2] && r1[0] <= r1[j1];
      var t1, t2 := r1[1..], r2[1..];
      forall x | x in t1 ensures x in t2 {
        var j :| 0 <= j < |t1| && t1[j] == x;
        assert r1[j + 1] == x && r1[0] < x;
        assert x in r1;
        var k :| 0 <= k < |r2| && r2[k] == x;
        assert k != 0 && t2[k - 1] == x;
      }
      forall x | x in t2 ensures x in t1 {
        var j :| 0 <= j < |t2| && t2[j] == x;
        assert r2[j + 1] == x && r2[0] < x;
        assert x in r2;
        var k :| 0 <= k < |r1| && r1[k] == x;
        assert k != 0 && t1[k - 1] == x;
      }
      AscendingUnique(t1, t2);
      assert r1 == [r1[0]] + t1 && r2 == [r2[0]] + t2;
    }
  }

  // ---------------------------------------------------------------------
  // The left-to-right union of the tokens

  lemma {:induction false} CombineErrorSticks(rs: seq<Result<set<int>, PageError>>, j: nat)
    requires j <= |rs|
    requires Combine(rs[..j]).Err?
    ensures Combine(rs) == Combine(rs[..j])
    decreases |rs| - j
  {
    if j < |rs| {
      assert rs[..j + 1][..j] == rs[..j];
      CombineErrorSticks(rs, j + 1);
    } else {
      assert rs[..j] == rs;
    }
  }

  /** One more token result, folded into the union. */
  lemma CombineNext(rs: seq<Result<set<int>, PageError>>, i: nat)
    requires i < |rs|
    ensures Combine(rs[..i + 1]) ==
      match Combine(rs[..i])
      case Err(e) => Err(e)
      case Ok(s) => (match rs[i] case Err(e) => Err(e) case Ok(t) => Ok(s + t))
  {
    assert rs[..i + 1][..i] == rs[..i];
  }

  /** The union of a sequence of pieces, extended by one more piece. */
  lemma UnionLast(parts: seq<string>, n: nat)
    requires parts != []
    ensures Union(parts, n) ==
      match Union(parts[..|parts| - 1], n)
      case Err(e) => Err(e)
      case Ok(s) => (match TokenPages(Strip(parts[|parts| - 1]), n) case Err(e) => Err(e) case Ok(t) => Ok(s + t))
  {
    var rs, i := Tokens(parts, n), |parts| - 1;
    assert rs[..i] == Tokens(parts[..i], n);
    assert rs[..i + 1] == rs;
    CombineNext(rs, i);
  }

  /** The union succeeds exactly when every piece does, and then holds the
      pages some piece names. */
  lemma UnionOk(parts: seq<string>, n: nat)
    ensures Union(parts, n).Ok? <==> forall j :: 0 <= j < |parts| ==> TokenPages(Strip(parts[j]), n).Ok?
    ensures Union(parts, n).Ok? ==>
        forall p :: p in Union(parts, n).value <==>
          exists j :: 0 <= j < |parts| && TokenPages(Strip(parts[j]), n).Ok? && p in TokenPages(Strip(parts[j]), n).value
  {
    CombineOk(Tokens(parts, n));
  }

  /** A failing union reports the error of its first failing piece. */
  lemma UnionFirstError(parts: seq<string>, n: nat)
    requires Union(parts, n).Err?
    ensures exists j ::
      && 0 <= j < |parts|
      && TokenPages(Strip(parts[j]), n) == Err(Union(parts, n).error)
      && (forall i :: 0 <= i < j ==> TokenPages(Strip(parts[i]), n).Ok?)
  {
    CombineFirstError(Tokens(parts, n));
  }

  /** A non-empty specification resolves to its union, sorted. */
  lemma ResolveByUnion(spec: string, n: nat)
    requires spec != ""
    ensures var u := Union(Split(spec, ','), n);
      && (Resolve(Some(spec), n).Ok? <==> u.Ok?)
      && (u.Err? ==> Resolve(Some(spec), n).error == u.error)
      && (u.Ok? ==> forall p :: p in Resolve(Some(spec), n).value <==> p in u.value)
  {
  }

  lemma UnionErrorSticks(parts: seq<string>, j: nat, n: nat)
    requires j <= |parts|
    requires Union(parts[..j], n).Err?
    ensures Union(parts, n) == Union(parts[..j], n)
  {
    assert Tokens(parts, n)[..j] == Tokens(parts[..j], n);
    CombineErrorSticks(Tokens(parts, n), j);
  }

  /** The union succeeds exactly when every token does, and then holds
      exactly the pages some token names. */
  lemma {:induction false} CombineOk(rs: seq<Result<set<int>, PageError>>)
    ensures Combine(rs).Ok? <==> forall j :: 0 <= j < |rs| ==> rs[j].Ok?
    ensures Combine(rs).Ok? ==>
      forall p :: p in Combine(rs).value <==> exists j :: 0 <= j < |rs| && rs[j].Ok? && p in rs[j].value
  {
    if rs != [] {
      var init := rs[..|rs| - 1];
      CombineOk(init);
      assert forall j :: 0 <= j < |init| ==> init[j] == rs[j];
    }
  }

  /** A failing union reports the error of its first failing token. */
  lemma {:induction false} CombineFirstError(rs: seq<Result<set<int>, PageError>>)
    requires Combine(rs).Err?
    ensures exists j :: 0 <= j < |rs| && rs[j] == Err(Combine(rs).error) && (forall i :: 0 <= i < j ==> rs[i].Ok?)
  {
    var init := rs[..|rs| - 1];
    assert forall j :: 0 <= j < |init| ==> init[j] == rs[j];
    if Combine(init).Err? {
      CombineFirstError(init);
    } else {
      CombineOk(init);
      var j := |rs| - 1;
      assert rs[j] == Err(Combine(rs).error);
    }
  }

  lemma TokenInBounds(part: string, n: nat)
    requires TokenPages(part, n).Ok?
    ensures forall p :: p in TokenPages(part, n).value ==> 1 <= p <= n
  {
    if '-' in part {
      var k := IndexOf(part, '-');
      var a, b := ParseInt(part[..k]).value, ParseInt(part[k + 1..]).value;
      assert TokenPages(part, n) == RangePages(part, k, n) == Ok(Span(a, b));
    } else {
      assert TokenPages(part, n) == NumberPages(part, n) == Ok({ParseInt(part).value});
    }
  }

  /** Every page a successful union holds is one of the document's pages. */
  lemma UnionInBounds(parts: seq<string>, n: nat)
    requires Union(parts, n).Ok?
    ensures forall p :: p in Union(parts, n).value ==> 1 <= p <= n
  {
    var rs := Tokens(parts, n);
    CombineOk(rs);
    forall p | p in Combine(rs).value ensures 1 <= p <= n {
      var j :| 0 <= j < |rs| && rs[j].Ok? && p in rs[j].value;
      TokenInBounds(Strip(parts[j]), n);
    }
  }

  // ---------------------------------------------------------------------
  // Properties of the resolver

  /** Whatever the resolver accepts is strictly ascending (so holds no page
      twice) and lies within the document. */
  lemma ResolveSound(pagesArg: Option<string>, n: nat)
    requires Resolve(pagesArg, n).Ok?
    ensures StrictlyAscending(Resolve(pagesArg, n).value)
    ensures InBounds(Resolve(pagesArg, n).value, n)
  {
    if pagesArg.Some? && pagesArg.value != "" {
      var parts := Split(pagesArg.value, ',');
      UnionInBounds(parts, n);
      var r := Resolve(pagesArg, n).value;
      forall i | 0 <= i < |r| ensures 1 <= r[i] <= n {
        assert r[i] in Union(parts, n).value;
      }
    }
  }

  /** A non-empty specification is accepted exactly when each of its
      comma-separated tokens is, and then selects the union of their pages. */
  lemma ResolveIsUnion(spec: string, n: nat)
    requires spec != ""
    ensures var parts := Split(spec, ',');
      Resolve(Some(spec), n).Ok? <==> forall j :: 0 <= j < |parts| ==> TokenPages(Strip(parts[j]), n).Ok?
    ensures var parts := Split(spec, ',');
      Resolve(Some(spec), n).Ok? ==>
        forall p :: p in Resolve(Some(spec), n).value <==>
          exists j :: 0 <= j < |parts| && TokenPages(Strip(parts[j]), n).Ok? && p in TokenPages(Strip(parts[j]), n).value
  {
    UnionOk(Split(spec, ','), n);
    ResolveByUnion(spec, n);
  }

  /** A rejected specification fails with the error of its first bad token;
      nothing is returned. */
  lemma ResolveFirstError(spec: string, n: nat)
    requires Resolve(Some(spec), n).Err?
    ensures var parts := Split(spec, ',');
      exists j :: 0 <= j < |parts| && TokenPages(Strip(parts[j]), n) == Err(Resolve(Some(spec), n).error)
        && (forall i :: 0 <= i < j ==> TokenPages(Strip(parts[i]), n).Ok?)
  {
    ResolveByUnion(spec, n);
    UnionFirstError(Split(spec, ','), n);
  }

  // ---------------------------------------------------------------------
  // Single tokens

  /** A non-empty run of ASCII digits, such as `str(n)` gives for n >= 0. */
  predicate AllDigits(s: string)
  {
    s != [] && forall i :: 0 <= i < |s| ==> IsDigit(s[i])
  }

  /** A token whose first `-` comes after `x` is cut into `x` and the rest. */
  lemma CutAtDash(x: string, z: string)
    requires '-' !in x
    ensures '-' in x + "-" + z && IndexOf(x + "-" + z, '-') == |x|
    ensures (x + "-" + z)[..|x|] == x && (x + "-" + z)[|x| + 1..] == z
  {
    var s := x + "-" + z;
    assert s[|x|] == '-';
    assert s[..|x|] == x;
  }

  /** "x-y" for digit strings holds no comma and no surrounding space. */
  lemma DigitsAndDash(x: string, y: string)
    requires AllDigits(x) && AllDigits(y)
    ensures ',' !in x + "-" + y && '-' !in x
    ensures Strip(x + "-" + y) == x + "-" + y
  {
    var s := x + "-" + y;
    assert s[0] == x[0] && s[|s| - 1] == y[|y| - 1];
    StripNoop(s);
    assert forall i :: 0 <= i < |s| ==> s[i] == '-' || (i < |x| && s[i] == x[i]) || (i > |x| && s[i] == y[i - |x| - 1]);
  }

  /** A range token of two integers selects the pages between them when both
      are pages of the document in order, and is otherwise an invalid range. */
  lemma RangeOfDigits(x: string, y: string, n: nat)
    requires AllDigits(x) && ParseInt(x).Some? && ParseInt(y).Some?
    ensures var token, a, b := x + "-" + y, ParseInt(x).value, ParseInt(y).value;
      TokenPages(token, n) == if 1 <= a <= b <= n then Ok(Span(a, b)) else Err(InvalidPageRange(token))
  {
    var token := x + "-" + y;
    assert '-' !in x by {
      assert forall i :: 0 <= i < |x| ==> x[i] != '-';
    }
    CutAtDash(x, y);
    assert TokenPages(token, n) == RangePages(token, |x|, n);
  }

  /** A range token "a-b" selects the pages a to b exactly when
      1 <= a <= b <= n, and is otherwise an invalid range. */
  lemma RangeToken(a: nat, b: nat, n: nat)
    ensures var token := Decimal(a) + "-" + Decimal(b);
      TokenPages(token, n) == if 1 <= a <= b <= n then Ok(Span(a, b)) else Err(InvalidPageRange(token))
  {
    ParseIntDecimal(a);
    ParseIntDecimal(b);
    RangeOfDigits(Decimal(a), Decimal(b), n);
  }

  /** A range whose upper end is negative ("1--3") is read as a range and
      rejected as one. */
  lemma NegativeRangeEnd(a: nat, b: nat, n: nat)
    requires b >= 1
    ensures var token := Decimal(a) + "-" + "-" + Decimal(b);
      TokenPages(token, n) == Err(InvalidPageRange(token))
  {
    ParseIntDecimal(a);
    ParseIntNegative(b);
    NegativeEndOfDigits(Decimal(a), Decimal(b), n);
  }

  /** "x--y" is the range from x to the integer "-y", rejected when that
      integer is below 1. */
  lemma NegativeEndOfDigits(x: string, y: string, n: nat)
    requires AllDigits(x) && ParseInt(x).Some?
    requires ParseInt("-" + y).Some? && ParseInt("-" + y).value < 1
    ensures TokenPages(x + "-" + "-" + y, n) == Err(InvalidPageRange(x + "-" + "-" + y))
  {
    assert x + "-" + "-" + y == x + "-" + ("-" + y);
    RangeOfDigits(x, "-" + y, n);
  }

  /** A single number p selects page p when 1 <= p <= n and is otherwise an
      invalid page number. */
  lemma SingleToken(p: nat, n: nat)
    ensures TokenPages(Decimal(p), n) == if 1 <= p <= n then Ok({p}) else Err(InvalidPageNumber(p))
  {
    ParseIntDecimal(p);
    NumberOfDigits(Decimal(p), n);
  }

  /** A token of digits alone is read as one page number. */
  lemma NumberOfDigits(d: string, n: nat)
    requires AllDigits(d)
    ensures TokenPages(d, n) == NumberPages(d, n)
  {
    assert forall i :: 0 <= i < |d| ==> d[i] != '-';
  }

  /** An ASCII separator inside a range is not skipped by `int()`: "1\x1c-2"
      names no pages, whatever the page count. */
  lemma SeparatorInRange(n: nat)
    ensures TokenPages("1\U{1C}-2", n) == Err(NotAnInteger("1\U{1C}"))
  {
    assert "1\U{1C}-2" == "1\U{1C}" + "-" + "2";
    assert '-' !in "1\U{1C}" by {
      assert "1\U{1C}"[0] == '1' && "1\U{1C}"[1] == '\U{1C}';
    }
    CutAtDash("1\U{1C}", "2");
    ParseIntKeepsSeparator();
  }

  /** A negative-looking number "-p" is cut at its `-` like a range, and its
      empty left half is not an integer. */
  lemma NegativeNumberToken(p: nat, n: nat)
    ensures TokenPages("-" + Decimal(p), n) == Err(NotAnInteger(""))
  {
    var token := "-" + Decimal(p);
    assert token[0] == '-';
    assert IndexOf(token, '-') == 0;
    assert token[..0] == "";
  }

  // ---------------------------------------------------------------------
  // Round trip: printing well-formed tokens and resolving them

  /** A page specification token as a user writes it. */
  datatype PageToken = Single(page: nat) | Range(first: nat, last: nat)

  function Show(t: PageToken): string
  {
    match t
    case Single(p) => Decimal(p)
    case Range(a, b) => Decimal(a) + "-" + Decimal(b)
  }

  function ShowAll(ts: seq<PageToken>): (r: seq<string>)
    ensures |r| == |ts| && forall i :: 0 <= i < |ts| ==> r[i] == Show(ts[i])
  {
    if ts == [] then [] else ShowAll(ts[..|ts| - 1]) + [Show(ts[|ts| - 1])]
  }

  /** The specification string "t1,t2,...". */
  function ShowSpec(ts: seq<PageToken>): string
  {
    Join(ShowAll(ts), ',')
  }

  predicate ValidToken(t: PageToken, n: nat)
  {
    match t
    case Single(p) => 1 <= p <= n
    case Range(a, b) => 1 <= a <= b <= n
  }

  function TokenSet(t: PageToken): set<int>
  {
    match t
    case Single(p) => {p}
    case Range(a, b) => Span(a, b)
  }

  function TokensSet(ts: seq<PageToken>): set<int>
  {
    if ts == [] then {} else TokensSet(ts[..|ts| - 1]) + TokenSet(ts[|ts| - 1])
  }

  /** A printed token survives splitting and trimming, and a valid one
      selects exactly its pages. */
  lemma ShowToken(t: PageToken, n: nat)
    ensures ',' !in Show(t) && Strip(Show(t)) == Show(t)
    ensures ValidToken(t, n) ==> TokenPages(Show(t), n) == Ok(TokenSet(t))
  {
    match t
    case Single(p) =>
      var d := Decimal(p);
      assert ',' !in d by {
        assert forall i :: 0 <= i < |d| ==> d[i] != ',';
      }
      StripNoop(d);
      SingleToken(p, n);
    case Range(a, b) =>
      DigitsAndDash(Decimal(a), Decimal(b));
      RangeToken(a, b, n);
  }

  /** Pieces that each select the pages of a token select their union. */
  lemma {:induction false} UnionOfTokens(parts: seq<string>, ts: seq<PageToken>, n: nat)
    requires |parts| == |ts|
    requires forall i :: 0 <= i < |ts| ==> TokenPages(Strip(parts[i]), n) == Ok(TokenSet(ts[i]))
    ensures Union(parts, n) == Ok(TokensSet(ts))
  {
    if ts == [] {
      assert Tokens(parts, n) == [];
    } else {
      var i := |ts| - 1;
      UnionOfTokens(parts[..i], ts[..i], n);
      UnionLast(parts, n);
    }
  }

  lemma UnionShown(ts: seq<PageToken>, n: nat)
    requires forall i :: 0 <= i < |ts| ==> ValidToken(ts[i], n)
    ensures Union(ShowAll(ts), n) == Ok(TokensSet(ts))
  {
    var strs := ShowAll(ts);
    forall i | 0 <= i < |ts| ensures TokenPages(Strip(strs[i]), n) == Ok(TokenSet(ts[i])) {
      ShowToken(ts[i], n);
    }
    UnionOfTokens(strs, ts, n);
  }

  /** A specification joined from comma-free pieces resolves to the sorted
      union of those pieces. */
  lemma ResolveJoined(strs: seq<string>, n: nat)
    requires |strs| > 0 && strs[0] != ""
    requires forall i :: 0 <= i < |strs| ==> ',' !in strs[i]
    ensures Resolve(Some(Join(strs, ',')), n) ==
      match Union(strs, n)
      case Err(e) => Err(e)
      case Ok(s) => Ok(SortedSeq(s))
  {
    SplitJoin(strs, ',');
    JoinLength(strs, ',');
  }

  /** Writing valid tokens out as a specification and resolving it gives
      the sorted union of the pages they name. */
  lemma ResolveShown(ts: seq<PageToken>, n: nat)
    requires |ts| > 0
    requires forall i :: 0 <= i < |ts| ==> ValidToken(ts[i], n)
    ensures Resolve(Some(ShowSpec(ts)), n) == Ok(SortedSeq(TokensSet(ts)))
  {
    var strs := ShowAll(ts);
    forall i | 0 <= i < |strs| ensures ',' !in strs[i] {
      ShowToken(ts[i], n);
    }
    ShowNonEmpty(ts[0]);
    ResolveJoined(strs, n);
    UnionShown(ts, n);
  }

  lemma ShowNonEmpty(t: PageToken)
    ensures Show(t) != ""
  {
  }

  lemma {:induction false} JoinLength(parts: seq<string>, sep: char)
    requires |parts| > 0
    ensures |Join(parts, sep)| >= |parts[0]|
  {
  }

  /** `sorted(range(1, n + 1))` is `list(range(1, n + 1))`. */
  lemma SortedSpan(n: nat)
    ensures SortedSeq(Span(1, n)) == AllPages(n)
  {
    var all := AllPages(n);
    forall i, j | 0 <= i < j < |all| ensures all[i] < all[j] {
    }
    forall x ensures x in all <==> x in Span(1, n) {
      if 1 <= x <= n {
        assert all[x - 1] == x;
      }
    }
    AscendingUnique(SortedSeq(Span(1, n)), all);
  }

  /** An absent or empty specification selects every page, 1 to n, which is
      also what the range "1-n" selects. */
  lemma AbsentSpecAllPages(n: nat)
    ensures Resolve(None, n) == Ok(AllPages(n)) && Resolve(Some(""), n) == Ok(AllPages(n))
    ensures n >= 1 ==> Resolve(Some(Decimal(1) + "-" + Decimal(n)), n) == Ok(AllPages(n))
  {
    if n >= 1 {
      var ts := [Range(1, n)];
      assert ShowSpec(ts) == Decimal(1) + "-" + Decimal(n);
      assert TokensSet(ts) == Span(1, n) by {
        assert ts[..0] == [];
      }
      ResolveShown(ts, n);
      SortedSpan(n);
    }
  }

  /** The examples of the resolver's documentation. */
  lemma DocExamples()
    ensures Resolve(Some("1,3-5"), 10) == Ok([1, 3, 4, 5])
    ensures Resolve(None, 5) == Ok([1, 2, 3, 4, 5])
    ensures Resolve(Some("2-4,1"), 10) == Ok([1, 2, 3, 4])
  {
    ResolveMixed();
    PagesMixed();
    SortedPagesMixed();
    ResolveUnordered();
    PagesUnordered();
    SortedPagesUnordered();
    FivePages();
  }

  lemma ResolveMixed()
    ensures Resolve(Some("1,3-5"), 10) == Ok(SortedSeq(TokensSet([Single(1), Range(3, 5)])))
  {
    assert ShowSpec([Single(1), Range(3, 5)]) == "1,3-5";
    ResolveShown([Single(1), Range(3, 5)], 10);
  }

  lemma PagesMixed()
    ensures TokensSet([Single(1), Range(3, 5)]) == {1, 3, 4, 5}
  {
  }

  lemma SortedPagesMixed()
    ensures SortedSeq({1, 3, 4, 5}) == [1, 3, 4, 5]
  {
    AscendingUnique(SortedSeq({1, 3, 4, 5}), [1, 3, 4, 5]);
  }

  lemma ResolveUnordered()
    ensures Resolve(Some("2-4,1"), 10) == Ok(SortedSeq(TokensSet([Range(2, 4), Single(1)])))
  {
    assert ShowSpec([Range(2, 4), Single(1)]) == "2-4,1";
    ResolveShown([Range(2, 4), Single(1)], 10);
  }

  lemma PagesUnordered()
    ensures TokensSet([Range(2, 4), Single(1)]) == {1, 2, 3, 4}
  {
  }

  lemma SortedPagesUnordered()
    ensures SortedSeq({1, 2, 3, 4}) == [1, 2, 3, 4]
  {
    AscendingUnique(SortedSeq({1, 2, 3, 4}), [1, 2, 3, 4]);
  }

  lemma FivePages()
    ensures AllPages(5) == [1, 2, 3, 4, 5]
  {
  }
}
