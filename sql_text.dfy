/** Query text as psycopg2 reads it, and Python's `str.join`. */
module SqlText {

  /** `s` does not end in a `%`, so a `%` directive never spans the end of
      `s` and whatever text is appended to it. */
  predicate Closed(s: string) {
    s == [] || s[|s| - 1] != '%'
  }

  /** The number of parameters a query text takes, read the way psycopg2
      reads its "format" parameter style: a `%` starts a two-character
      directive, `%s` takes one parameter and `%%` is a literal percent sign. */
  function PlaceholderCount(q: string): nat
    decreases |q|
  {
    if |q| < 2 then 0
    else if q[0] == '%' then (if q[1] == 's' then 1 else 0) + PlaceholderCount(q[2..])
    else PlaceholderCount(q[1..])
  }

  /** Python's `sep.join(parts)`. */
  function Join(sep: string, parts: seq<string>): string
    decreases |parts|
  {
    if parts == [] then ""
    else if |parts| == 1 then parts[0]
    else parts[0] + sep + Join(sep, parts[1..])
  }

  /** Text without a `%` takes no parameter. */
  lemma {:induction false} NoPercentNoPlaceholder(q: string)
    requires '%' !in q
    ensures PlaceholderCount(q) == 0 && Closed(q)
    decreases |q|
  {
    if |q| >= 2 {
      assert forall c :: c in q[1..] ==> c in q;
      NoPercentNoPlaceholder(q[1..]);
    }
  }

  lemma NoPercentAppend(a: string, b: string)
    requires '%' !in a && '%' !in b
    ensures '%' !in a + b
  {
  }

  /** A closed prefix and what follows it are read independently. */
  lemma {:induction false} PlaceholderCountAppend(a: string, b: string)
    requires Closed(a)
    ensures PlaceholderCount(a + b) == PlaceholderCount(a) + PlaceholderCount(b)
    decreases |a|
  {
    var s := a + b;
    if a == [] {
      assert s == b;
    } else if |s| < 2 {
      assert b == [];
      assert s == a;
    } else if a[0] == '%' {
      assert |a| >= 2;
      assert s[0] == a[0] && s[1] == a[1];
      assert s[2..] == a[2..] + b;
      assert a[2..] == [] || a[2..][|a[2..]| - 1] == a[|a| - 1];
      PlaceholderCountAppend(a[2..], b);
    } else {
      assert s[1..] == a[1..] + b;
      assert a[1..] == [] || a[1..][|a[1..]| - 1] == a[|a| - 1];
      PlaceholderCountAppend(a[1..], b);
    }
  }

  lemma ClosedAppend(a: string, b: string)
    requires Closed(a) && Closed(b)
    ensures Closed(a + b)
  {
    if b != [] {
      assert (a + b)[|a + b| - 1] == b[|b| - 1];
    }
  }

  /** Joining closed one-placeholder parts with a separator that takes no
      parameter gives a closed text taking exactly one parameter per part. */
  lemma {:induction false} JoinPlaceholders(sep: string, parts: seq<string>)
    requires Closed(sep) && PlaceholderCount(sep) == 0
    requires forall i :: 0 <= i < |parts| ==> Closed(parts[i]) && PlaceholderCount(parts[i]) == 1
    ensures PlaceholderCount(Join(sep, parts)) == |parts|
    ensures Closed(Join(sep, parts))
    decreases |parts|
  {
    if |parts| > 1 {
      var rest := Join(sep, parts[1..]);
      JoinPlaceholders(sep, parts[1..]);
      ClosedAppend(parts[0], sep);
      PlaceholderCountAppend(parts[0], sep);
      PlaceholderCountAppend(parts[0] + sep, rest);
      ClosedAppend(parts[0] + sep, rest);
      assert Join(sep, parts) == parts[0] + sep + rest;
    }
  }

  /** `%s` takes one parameter. */
  lemma OnePlaceholder()
    ensures PlaceholderCount("%s") == 1 && Closed("%s")
  {
    assert "%s"[2..] == [];
  }

  /** A literal text followed by one `%s`, as in `email=%s` or ` WHERE id=%s`,
      takes exactly one parameter. */
  lemma {:induction false} LiteralThenPlaceholder(text: string)
    requires '%' !in text
    ensures PlaceholderCount(text + "%s") == 1 && Closed(text + "%s")
  {
    NoPercentNoPlaceholder(text);
    OnePlaceholder();
    PlaceholderCountAppend(text, "%s");
    ClosedAppend(text, "%s");
  }

  /** A statement text made of a literal head, a body and a tail takes the
      parameters of its body and its tail. */
  lemma FramedPlaceholders(head: string, body: string, tail: string)
    requires '%' !in head && Closed(body)
    ensures PlaceholderCount(head + body + tail) == PlaceholderCount(body) + PlaceholderCount(tail)
  {
    NoPercentNoPlaceholder(head);
    PlaceholderCountAppend(head, body);
    ClosedAppend(head, body);
    PlaceholderCountAppend(head + body, tail);
  }
}
