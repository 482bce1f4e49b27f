/**
 * The string helper `list_to_str`: every element is wrapped in a quote string
 * and the wrapped elements are joined with a delimiter. Elements are taken
 * verbatim; nothing inside them is escaped.
 */
module StringHelpers {

  /** Each element with `quote` on both sides, in input order (the list comprehension). */
  function Quoted(lst: seq<string>, quote: string): (r: seq<string>)
    ensures |r| == |lst|
    ensures forall i :: 0 <= i < |lst| ==> r[i] == quote + lst[i] + quote
  {
    seq(|lst|, i requires 0 <= i < |lst| => quote + lst[i] + quote)
  }

  /** Total length of the strings of `parts`. */
  function SumLen(parts: seq<string>): nat
  {
    if parts == [] then 0 else |parts[0]| + SumLen(parts[1..])
  }

  /** `delim.join(parts)`: the parts in order, `delim` between two neighbours. */
  function Join(delim: string, parts: seq<string>): (r: string)
    ensures parts == [] ==> r == ""
    ensures |parts| > 0 ==> |r| == SumLen(parts) + (|parts| - 1) * |delim|
  {
    if parts == [] then ""
    else if |parts| == 1 then parts[0]
    else parts[0] + delim + Join(delim, parts[1..])
  }

  /** `list_to_str(lst, delim=", ", quote="'")`. */
  function ListToStr(lst: seq<string>, delim: string := ", ", quote: string := "'"): (r: string)
    ensures lst == [] ==> r == ""
    ensures |lst| == 1 ==> r == quote + lst[0] + quote
  {
    Join(delim, Quoted(lst, quote))
  }

  lemma {:induction false} SumLenQuoted(lst: seq<string>, quote: string)
    ensures SumLen(Quoted(lst, quote)) == SumLen(lst) + 2 * |lst| * |quote|
  {
    if lst != [] {
      assert Quoted(lst, quote)[1..] == Quoted(lst[1..], quote);
      SumLenQuoted(lst[1..], quote);
    }
  }

  /** For n >= 1 elements the result is as long as the elements, 2n quotes and n - 1 delimiters. */
  lemma ListToStrLength(lst: seq<string>, delim: string, quote: string)
    requires |lst| >= 1
    ensures |ListToStr(lst, delim, quote)| == SumLen(lst) + 2 * |lst| * |quote| + (|lst| - 1) * |delim|
  {
    SumLenQuoted(lst, quote);
  }

  /** Serialising two non-empty lists one after the other puts one delimiter between them. */
  lemma {:induction false} ListToStrAppend(a: seq<string>, b: seq<string>, delim: string, quote: string)
    requires a != [] && b != []
    ensures ListToStr(a + b, delim, quote) == ListToStr(a, delim, quote) + delim + ListToStr(b, delim, quote)
  {
    var qa, qb := Quoted(a, quote), Quoted(b, quote);
    assert Quoted(a + b, quote) == qa + qb;
    if |a| == 1 {
      assert qa + qb == [qa[0]] + qb;
    } else {
      assert (a + b)[1..] == a[1..] + b;
      assert Quoted(a, quote)[1..] == Quoted(a[1..], quote);
      assert Quoted(a + b, quote)[1..] == Quoted(a[1..] + b, quote);
      ListToStrAppend(a[1..], b, delim, quote);
    }
  }

  /**
   * Element i appears verbatim between two quotes, after the serialisation of
   * the elements before it and a delimiter, and before a delimiter and the
   * serialisation of the elements after it.
   */
  lemma ListToStrElementAt(lst: seq<string>, delim: string, quote: string, i: nat)
    requires i < |lst|
    ensures ListToStr(lst, delim, quote) ==
      (if i == 0 then "" else ListToStr(lst[..i], delim, quote) + delim)
      + quote + lst[i] + quote
      + (if i == |lst| - 1 then "" else delim + ListToStr(lst[i + 1..], delim, quote))
  {
    var before, here, after := lst[..i], [lst[i]], lst[i + 1..];
    assert ListToStr(here, delim, quote) == quote + lst[i] + quote;
    if i == 0 && i == |lst| - 1 {
      assert lst == here;
    } else if i == 0 {
      assert lst == here + after;
      ListToStrAppend(here, after, delim, quote);
    } else if i == |lst| - 1 {
      assert lst == before + here;
      ListToStrAppend(before, here, delim, quote);
    } else {
      assert lst == before + (here + after);
      ListToStrAppend(here, after, delim, quote);
      ListToStrAppend(before, here + after, delim, quote);
    }
  }

  /**
   * Because elements are not escaped, different lists can serialise to the
   * same text: one element holding `a', 'b` looks like the two elements a and b.
   */
  lemma ListToStrNotInjective()
    ensures ["a', 'b"] != ["a", "b"]
    ensures ListToStr(["a', 'b"]) == ListToStr(["a", "b"]) == "'a', 'b'"
  {
    var q := Quoted(["a", "b"], "'");
    assert q[0] == "'a'" && q[1] == "'b'";
    assert q == ["'a'", "'b'"];
    assert Join(", ", ["'a'", "'b'"]) == "'a'" + ", " + Join(", ", ["'b'"]);
  }
}
