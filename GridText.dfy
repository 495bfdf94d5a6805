/** What the NE and NS files of server/templates/grid/vector.py share: a
    file is its sequence of lines, Python's `float` parsing and float
    formatting are parameters and float values are reals, the lists are
    read as columns of rows, and both writers run the same loop over
    entries 1.. of their lists. */
module GridText {
  import opened Wrappers
  import opened Text

  /** `float(token)` (None for a ValueError), `f"{x:.14g}"` and `f"{x}"`. */
  datatype FloatText = FloatText(parse: string -> Option<real>, fixed14: real -> string, repr: real -> string)

  /** `int(x)` of a float: truncation toward zero. */
  function Trunc(x: real): int
  {
    if x >= 0.0 then x.Floor else -((-x).Floor)
  }

  function Max(a: int, b: int): int
  {
    if a >= b then a else b
  }

  /** The RuntimeError of `get_ne` and the two ValueErrors of `get_ns`,
      each with its one-based line number. */
  datatype LoadError = NeLineError(line: nat) | EdgeDataError(line: nat) | SideDataError(line: nat)

  /** The IndexError of a writer reading past the end of a list. */
  datatype WriteError = IndexError

  /** `row_data[j]`, with Python's negative indexing; None for an IndexError. */
  function PyAt(ts: seq<string>, j: int): Option<string>
  {
    if 0 <= j < |ts| then Some(ts[j])
    else if -|ts| <= j < 0 then Some(ts[|ts| + j])
    else None
  }

  /** `int(row_data[j])` */
  function IntAt(ts: seq<string>, j: int): Option<int>
  {
    var t := PyAt(ts, j);
    if t.None? then None else ParseInt(t.value)
  }

  /** One field of every row, in order. */
  function Column<R, U>(rows: seq<R>, f: R -> U): (c: seq<U>)
    ensures |c| == |rows| && forall i :: 0 <= i < |rows| ==> c[i] == f(rows[i])
  {
    seq(|rows|, i requires 0 <= i < |rows| => f(rows[i]))
  }

  lemma ColumnSnoc<R, U>(rows: seq<R>, r: R, f: R -> U)
    ensures Column(rows + [r], f) == Column(rows, f) + [f(r)]
  {
  }

  /** What Python's `float` and number formatting give: a formatted float
      is one token that `float` reads, and `float` reads `str` of an integer. */
  ghost predicate FloatsRead(ft: FloatText)
  {
    && (forall x :: IsToken(ft.fixed14(x)))
    && (forall x :: ft.parse(ft.fixed14(x)).Some?)
    && (forall x :: IsToken(ft.repr(x)))
    && (forall x :: ft.parse(ft.repr(x)).Some?)
    && (forall n :: ft.parse(IntText(n)).Some?)
  }

  predicate AllTokens(ts: seq<string>)
  {
    forall k :: 0 <= k < |ts| ==> IsToken(ts[k])
  }

  lemma AllTokensConcat(a: seq<string>, b: seq<string>)
    requires AllTokens(a) && AllTokens(b)
    ensures AllTokens(a + b)
  {
  }

  // ---------------------------------------------------------------------
  // The writers' loop

  /** The lines a writer's loop over rows 1..m produces from its row
      formatter, ending at the first row that raises. */
  function Lines(lineOf: nat -> Option<string>, m: nat): Result<seq<string>, WriteError>
  {
    if m == 0 then Ok([])
    else
      var prev := Lines(lineOf, m - 1);
      if prev.Err? then prev
      else if lineOf(m).None? then Err(IndexError)
      else Ok(prev.value + [lineOf(m).value])
  }

  lemma {:induction false} LinesOk(lineOf: nat -> Option<string>, m: nat)
    ensures Lines(lineOf, m).Ok? <==> forall k :: 1 <= k <= m ==> lineOf(k).Some?
  {
    if m > 0 {
      LinesOk(lineOf, m - 1);
    }
  }

  lemma {:induction false} LinesLength(lineOf: nat -> Option<string>, m: nat)
    ensures Lines(lineOf, m).Ok? ==> |Lines(lineOf, m).value| == m
  {
    if m > 0 {
      LinesLength(lineOf, m - 1);
    }
  }

  lemma {:induction false} LinesErr(lineOf: nat -> Option<string>, m: nat)
    ensures Lines(lineOf, m).Err? ==> Lines(lineOf, m) == Err(IndexError)
  {
    if m > 0 {
      LinesErr(lineOf, m - 1);
    }
  }

  /** Line k of the file is row k + 1. */
  lemma {:induction false} LinesAt(lineOf: nat -> Option<string>, m: nat, k: nat)
    requires Lines(lineOf, m).Ok? && k < m
    ensures |Lines(lineOf, m).value| == m
    ensures lineOf(k + 1).Some? && Lines(lineOf, m).value[k] == lineOf(k + 1).value
  {
    LinesLength(lineOf, m);
    if k + 1 < m {
      LinesAt(lineOf, m - 1, k);
    }
  }

  lemma LinesSnoc(lineOf: nat -> Option<string>, m: nat, prev: seq<string>, line: string)
    requires m > 0 && Lines(lineOf, m - 1) == Ok(prev) && lineOf(m) == Some(line)
    ensures Lines(lineOf, m) == Ok(prev + [line])
  {
  }

  /** Once a row raises, the rest of the file does not matter. */
  lemma {:induction false} LinesErrStays(lineOf: nat -> Option<string>, m: nat, n: nat)
    requires m <= n && Lines(lineOf, m).Err?
    ensures Lines(lineOf, n) == Lines(lineOf, m)
  {
    if m < n {
      LinesErrStays(lineOf, m, n - 1);
    }
  }
}
