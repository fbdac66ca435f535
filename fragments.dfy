/**
 * SQL fragments as the query compiler produces them: raw text in which every
 * `?` marks one positional value and every `??` one identifier, together with
 * the ordered list of what fills those places.
 */
module Fragments {

  /** A literal value bound to a `?` placeholder. */
  datatype Literal = Num(n: int) | Str(s: string)

  /** What fills a placeholder: a value, a quoted identifier, or a compiled fragment inlined in place. */
  datatype Binding = Val(value: Literal) | Ident(name: string) | Frag(fragment: Fragment)

  /** Raw SQL text with placeholders and the bindings that fill them, left to right. */
  datatype Fragment = Raw(text: string, bindings: seq<Binding>)

  /** Number of placeholders in `s`: each `??` counts once, and so does each other `?`. */
  function Placeholders(s: string): nat
    decreases |s|
  {
    if s == [] then 0
    else if s[0] != '?' then Placeholders(s[1..])
    else if |s| > 1 && s[1] == '?' then 1 + Placeholders(s[2..])
    else 1 + Placeholders(s[1..])
  }

  /** A fragment is balanced when it has exactly one binding per placeholder. */
  predicate Balanced(f: Fragment) {
    Placeholders(f.text) == |f.bindings|
  }

  /** `n` single-mark spots, the list the compiler fills with one `?` per column. */
  function Marks(n: nat): (spots: seq<string>)
    ensures |spots| == n
  {
    seq(n, _ => "?")
  }

  /** The parts joined with `sep` between neighbours, as an array's join does. */
  function JoinWith(parts: seq<string>, sep: string): string
    decreases |parts|
  {
    if parts == [] then ""
    else if |parts| == 1 then parts[0]
    else parts[0] + sep + JoinWith(parts[1..], sep)
  }

  /** Text without any `?` does not change the placeholder count of what follows it. */
  lemma {:induction false} PlaceholdersAfterPlain(s: string, t: string)
    requires '?' !in s
    ensures Placeholders(s + t) == Placeholders(t)
    decreases |s|
  {
    if s != [] {
      assert (s + t)[0] == s[0] && s[0] in s;
      assert (s + t)[1..] == s[1..] + t;
      assert forall c :: c in s[1..] ==> c in s;
      PlaceholdersAfterPlain(s[1..], t);
    } else {
      assert s + t == t;
    }
  }

  /** A lone `?` adds exactly one placeholder when what follows it does not start with `?`. */
  lemma PlaceholdersOfMark(t: string)
    requires t == [] || t[0] != '?'
    ensures Placeholders("?" + t) == 1 + Placeholders(t)
  {
  }

  /** Joining `n` single marks with a separator free of `?` leaves exactly `n` placeholders. */
  lemma {:induction false} MarksPlaceholders(n: nat, sep: string)
    requires sep != [] && '?' !in sep
    ensures Placeholders(JoinWith(Marks(n), sep)) == n
    decreases n
  {
    if n == 1 {
      assert JoinWith(Marks(1), sep) == "?";
    } else if n > 1 {
      var rest := JoinWith(Marks(n - 1), sep);
      assert Marks(n)[1..] == Marks(n - 1);
      assert JoinWith(Marks(n), sep) == "?" + (sep + rest);
      PlaceholdersOfMark(sep + rest);
      PlaceholdersAfterPlain(sep, rest);
      MarksPlaceholders(n - 1, sep);
    }
  }

  /** Joining parts free of `?` with a separator free of `?` gives text free of `?`. */
  lemma {:induction false} JoinWithPlain(parts: seq<string>, sep: string)
    requires '?' !in sep
    requires forall i :: 0 <= i < |parts| ==> '?' !in parts[i]
    ensures '?' !in JoinWith(parts, sep)
    decreases |parts|
  {
    if |parts| > 1 {
      JoinWithPlain(parts[1..], sep);
    }
  }
}
