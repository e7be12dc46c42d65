/** Digit grouping in tooltips (jquery.sparkline.js, `formatNumber`), on the text of the number. */
module NumberFormat {

  // ----- what the result should be ---------------------------------------------------------

  /** The decimal point's position; the length when there is none. */
  function PointAt(text: string): (p: int)
    ensures 0 <= p <= |text|
    ensures p < |text| ==> text[p] == '.'
    ensures forall i :: 0 <= i < p ==> text[i] != '.'
  {
    if text == "" || text[0] == '.' then 0 else 1 + PointAt(text[1..])
  }

  /** `digits` cut into groups of `size` from the right; only the first may be shorter. */
  function Groups(digits: string, size: int): (r: seq<string>)
    requires 1 <= size
    ensures |r| > 0
    decreases |digits|
  {
    if |digits| <= size then [digits]
    else Groups(digits[..|digits| - size], size) + [digits[|digits| - size..]]
  }

  function Flat(parts: seq<string>): string {
    if parts == [] then "" else parts[0] + Flat(parts[1..])
  }

  function Join(groups: seq<string>, sep: string): string
    requires groups != []
  {
    if |groups| == 1 then groups[0] else Join(groups[..|groups| - 1], sep) + sep + groups[|groups| - 1]
  }

  function Fraction(text: string, mark: string): string {
    var p := PointAt(text);
    if p < |text| then mark + text[p + 1..] else ""
  }

  function Formatted(text: string, size: int, sep: string, mark: string): string
    requires 1 <= size
  {
    Join(Groups(text[..PointAt(text)], size), sep) + Fraction(text, mark)
  }

  // ----- the groups are right --------------------------------------------------------------

  lemma {:induction false} FlatConcat(a: seq<string>, b: seq<string>)
    ensures Flat(a + b) == Flat(a) + Flat(b)
  {
    if a == [] {
      assert a + b == b;
    } else {
      assert (a + b)[1..] == a[1..] + b;
      FlatConcat(a[1..], b);
    }
  }

  lemma FlatOne(s: string)
    ensures Flat([s]) == s
  {
    assert [s][1..] == [];
  }

  /**
   * Deleting the separators gives the digits back, every group after the first has exactly `size`
   * digits, and the first has between 1 and `size`.
   */
  lemma {:induction false} GroupsExact(digits: string, size: int)
    requires 1 <= size
    ensures var r := Groups(digits, size);
      && Flat(r) == digits
      && (forall i :: 0 < i < |r| ==> |r[i]| == size)
      && |r[0]| <= size && (digits != "" ==> 1 <= |r[0]|)
    decreases |digits|
  {
    if |digits| <= size {
      FlatOne(digits);
    } else {
      var k := |digits| - size;
      GroupsExact(digits[..k], size);
      FlatConcat(Groups(digits[..k], size), [digits[k..]]);
      FlatOne(digits[k..]);
      assert digits == digits[..k] + digits[k..];
    }
  }

  // ----- the splicing loop -----------------------------------------------------------------

  /** `split('')` */
  function Chars(s: string): (r: seq<string>)
    ensures |r| == |s| && forall i :: 0 <= i < |s| ==> r[i] == [s[i]]
  {
    seq(|s|, i requires 0 <= i < |s| => [s[i]])
  }

  lemma {:induction false} FlatChars(s: string)
    ensures Flat(Chars(s)) == s
  {
    if s != "" {
      assert Chars(s)[1..] == Chars(s[1..]);
      FlatChars(s[1..]);
      assert s == [s[0]] + s[1..];
    }
  }

  lemma JoinLast(groups: seq<string>, last: string, sep: string)
    requires groups != []
    ensures Join(groups + [last], sep) == Join(groups, sep) + sep + last
  {
    assert (groups + [last])[..|groups|] == groups;
  }

  /** The state after the groups to the right of position `b` have been split off. */
  ghost predicate SplitOff(text: string, size: int, sep: string, goal: string, num: seq<string>, b: int)
    requires 1 <= size
  {
    && 0 <= b <= |text| && b <= |num|
    && num[..b] == Chars(text[..b])
    && goal == Join(Groups(text[..b], size), sep) + Flat(num[b..])
  }

  lemma JoinGroups(text: string, size: int, sep: string, i: int, b: int)
    requires 1 <= size < b <= |text| && i == b - size
    ensures Join(Groups(text[..b], size), sep) == Join(Groups(text[..i], size), sep) + sep + text[i..b]
  {
    var head := text[..b];
    assert head[..i] == text[..i] && head[i..] == text[i..b];
    JoinLast(Groups(text[..i], size), text[i..b], sep);
  }

  lemma FlatTail(mid: string, num: seq<string>, sep: string)
    ensures Flat([sep] + (Chars(mid) + num)) == sep + mid + Flat(num)
  {
    FlatConcat([sep], Chars(mid) + num);
    FlatConcat(Chars(mid), num);
    FlatOne(sep);
    FlatChars(mid);
  }

  lemma SpliceShape(text: string, num: seq<string>, sep: string, i: int, b: int)
    requires 0 <= i <= b <= |text| && b <= |num| && num[..b] == Chars(text[..b])
    ensures var next := num[..i] + [sep] + num[i..];
      next[..i] == Chars(text[..i]) && next[i..] == [sep] + (Chars(text[i..b]) + num[b..])
  {
    assert num[i..] == num[..b][i..] + num[b..];
    assert num[..i] == num[..b][..i];
    assert Chars(text[..b])[i..] == Chars(text[i..b]);
    assert Chars(text[..b])[..i] == Chars(text[..i]);
  }

  lemma SplitStep(text: string, size: int, sep: string, goal: string, num: seq<string>, b: int, next: seq<string>)
    requires 1 <= size && SplitOff(text, size, sep, goal, num, b) && size < b
    requires next == num[..b - size] + [sep] + num[b - size..]
    ensures SplitOff(text, size, sep, goal, next, b - size)
  {
    var i := b - size;
    SpliceShape(text, num, sep, i, b);
    FlatTail(text[i..b], num[b..], sep);
    JoinGroups(text, size, sep, i, b);
    Assoc(Join(Groups(text[..i], size), sep), sep, text[i..b], Flat(num[b..]));
  }

  lemma Assoc(a: string, b: string, c: string, d: string)
    ensures a + b + c + d == a + (b + c + d)
  {
  }

  /** The characters with the decimal point replaced. */
  function Marked(text: string, mark: string): (r: seq<string>)
    ensures |r| == |text|
  {
    var p := PointAt(text);
    if p < |text| then Chars(text)[p := mark] else Chars(text)
  }

  lemma FlatChanged(text: string, p: int, mark: string)
    requires 0 <= p < |text|
    ensures Flat(Chars(text)[p := mark][p..]) == mark + text[p + 1..]
  {
    var rest := Chars(text[p + 1..]);
    assert Chars(text)[p := mark][p..] == [mark] + rest;
    FlatConcat([mark], rest);
    FlatOne(mark);
    FlatChars(text[p + 1..]);
  }

  lemma {:induction false} FractionFlat(text: string, mark: string)
    ensures Flat(Marked(text, mark)[PointAt(text)..]) == Fraction(text, mark)
  {
    var p := PointAt(text);
    if p < |text| {
      FlatChanged(text, p, mark);
    }
  }

  lemma {:induction false} SplitStart(text: string, size: int, sep: string, mark: string)
    requires 1 <= size
    ensures SplitOff(text, size, sep, Formatted(text, size, sep, mark), Marked(text, mark), PointAt(text))
  {
    var p := PointAt(text);
    assert Marked(text, mark)[..p] == Chars(text[..p]);
    FractionFlat(text, mark);
  }

  lemma SplitDone(text: string, size: int, sep: string, goal: string, num: seq<string>, b: int)
    requires 1 <= size && SplitOff(text, size, sep, goal, num, b) && b <= size
    ensures Flat(num) == goal
  {
    assert num == num[..b] + num[b..];
    FlatConcat(num[..b], num[b..]);
    FlatChars(text[..b]);
  }

  method FormatNumber(text: string, groupsize: int, groupsep: string, decsep: string) returns (r: string)
    requires 1 <= groupsize
    ensures r == Formatted(text, groupsize, groupsep, decsep)
  {
    var num := Chars(text);
    var p := PointAt(text);
    if p < |num| {
      num := num[p := decsep];
    }
    assert num == Marked(text, decsep);
    SplitStart(text, groupsize, groupsep, decsep);
    r := SpliceSeparators(text, p, num, groupsize, groupsep, Formatted(text, groupsize, groupsep, decsep));
  }

  /** The loop, from the decimal point at `p` leftwards. */
  method SpliceSeparators(ghost text: string, p: int, start: seq<string>, groupsize: int, groupsep: string, ghost goal: string)
    returns (r: string)
    requires 1 <= groupsize && SplitOff(text, groupsize, groupsep, goal, start, p)
    ensures r == goal
  {
    var num, i := start, p - groupsize;
    while i > 0
      invariant SplitOff(text, groupsize, groupsep, goal, num, i + groupsize)
    {
      var next := num[..i] + [groupsep] + num[i..];
      SplitStep(text, groupsize, groupsep, goal, num, i + groupsize, next);
      num := next;
      i := i - groupsize;
    }
    SplitDone(text, groupsize, groupsep, goal, num, i + groupsize);
    r := Flat(num);
  }

  // ----- undoing it ------------------------------------------------------------------------

  /** `s` with every `c` deleted. */
  function Strip(s: string, c: char): string {
    if s == "" then "" else (if s[0] == c then "" else [s[0]]) + Strip(s[1..], c)
  }

  lemma {:induction false} StripConcat(a: string, b: string, c: char)
    ensures Strip(a + b, c) == Strip(a, c) + Strip(b, c)
  {
    if a == "" {
      assert a + b == b;
    } else {
      assert (a + b)[1..] == a[1..] + b;
      StripConcat(a[1..], b, c);
    }
  }

  lemma {:induction false} StripAbsent(s: string, c: char)
    requires c !in s
    ensures Strip(s, c) == s
  {
    if s != "" {
      StripAbsent(s[1..], c);
    }
  }

  lemma StripThree(a: string, b: string, c: char)
    requires c !in b
    ensures Strip(a + [c] + b, c) == Strip(a, c) + b
  {
    calc {
      Strip(a + [c] + b, c);
      { StripConcat(a + [c], b, c); StripAbsent(b, c); }
      Strip(a + [c], c) + b;
      { StripConcat(a, [c], c); assert Strip([c], c) == "" by { assert [c][1..] == ""; } }
      Strip(a, c) + b;
    }
  }

  lemma {:induction false} StripGrouped(digits: string, size: int, c: char)
    requires 1 <= size && c !in digits
    ensures Strip(Join(Groups(digits, size), [c]), c) == digits
    decreases |digits|
  {
    if |digits| <= size {
      StripAbsent(digits, c);
    } else {
      var k := |digits| - size;
      var front, last := digits[..k], digits[k..];
      assert digits == front + last;
      StripGrouped(front, size, c);
      JoinLast(Groups(front, size), last, [c]);
      StripThree(Join(Groups(front, size), [c]), last, c);
    }
  }

  /** Deleting the separators leaves the text with only its decimal mark changed. */
  lemma SeparatorsDelete(text: string, size: int, c: char, mark: string)
    requires 1 <= size && c !in text && c !in mark
    ensures var p := PointAt(text);
      Strip(Formatted(text, size, [c], mark), c) == if p < |text| then text[..p] + mark + text[p + 1..] else text
  {
    var p := PointAt(text);
    var whole, tail := text[..p], Fraction(text, mark);
    assert Strip(Formatted(text, size, [c], mark), c) == whole + tail by {
      StripGrouped(whole, size, c);
      StripAbsent(tail, c);
      StripConcat(Join(Groups(whole, size), [c]), tail, c);
    }
    if p == |text| {
      assert whole == text && text + "" == text;
    } else {
      ConcatThree(whole, mark, text[p + 1..]);
    }
  }

  lemma ConcatThree(a: string, b: string, c: string)
    ensures a + (b + c) == a + b + c
  {
  }

  /** Groups are set next to each other with one separator between neighbours. */
  lemma {:induction false} JoinBetween(a: seq<string>, b: seq<string>, sep: string)
    requires a != [] && b != []
    ensures Join(a + b, sep) == Join(a, sep) + sep + Join(b, sep)
    decreases |b|
  {
    var n := |b| - 1;
    assert (a + b)[..|a| + n] == a + b[..n];
    if n == 0 {
      assert a + b[..n] == a;
    } else {
      JoinBetween(a, b[..n], sep);
      Assoc(Join(a, sep) + sep, Join(b[..n], sep), sep, b[n]);
    }
  }

  /** The whole result: the groups of the integer digits with separators between, then the mark and the other digits. */
  lemma FormattedExact(text: string, size: int, sep: string, mark: string)
    requires 1 <= size
    ensures var p := PointAt(text);
      var groups := Groups(text[..p], size);
      && Formatted(text, size, sep, mark) == Join(groups, sep) + (if p < |text| then mark + text[p + 1..] else "")
      && (|groups| == 1 ==> Join(groups, sep) == groups[0])
      && (forall i :: 0 < i < |groups| ==> Join(groups, sep) == Join(groups[..i], sep) + sep + Join(groups[i..], sep))
  {
    JoinSplits(Groups(text[..PointAt(text)], size), sep);
  }

  lemma JoinSplits(groups: seq<string>, sep: string)
    requires groups != []
    ensures forall i :: 0 < i < |groups| ==> Join(groups, sep) == Join(groups[..i], sep) + sep + Join(groups[i..], sep)
  {
    forall i | 0 < i < |groups| ensures Join(groups, sep) == Join(groups[..i], sep) + sep + Join(groups[i..], sep) {
      JoinBetween(groups[..i], groups[i..], sep);
      assert groups == groups[..i] + groups[i..];
    }
  }

  // ----- negative numbers ------------------------------------------------------------------

  /** A character in front joins the first group when there is room for it, and else stands alone. */
  lemma {:induction false} SignInFront(c: char, digits: string, size: int)
    requires 1 <= size && digits != ""
    ensures var r, q := Groups(digits, size), Groups([c] + digits, size);
      q == if |r[0]| < size then [[c] + r[0]] + r[1..] else [[c]] + r
    decreases |digits|
  {
    if |digits| <= size {
      SignOnShort(c, digits, size);
    } else {
      var k := |digits| - size;
      var all := [c] + digits;
      assert all[..k + 1] == [c] + digits[..k] && all[k + 1..] == digits[k..];
      SignInFront(c, digits[..k], size);
      GroupsExact(digits[..k], size);
      assert (Groups(digits[..k], size) + [digits[k..]])[1..] == Groups(digits[..k], size)[1..] + [digits[k..]];
    }
  }

  lemma SignOnShort(c: char, digits: string, size: int)
    requires 1 <= |digits| <= size
    ensures Groups([c] + digits, size) == if |digits| < size then [[c] + digits] else [[c], digits]
  {
    if |digits| == size {
      assert ([c] + digits)[..1] == [c] && ([c] + digits)[1..] == digits;
    }
  }

  lemma {:induction false} FirstGroupFull(digits: string, size: int)
    requires 1 <= size && digits != ""
    ensures |Groups(digits, size)[0]| == size <==> |digits| % size == 0
    decreases |digits|
  {
    if |digits| > size {
      FirstGroupFull(digits[..|digits| - size], size);
      SameRemainder(|digits|, size);
    } else if |digits| < size {
      RemainderIs(|digits|, size, 0, |digits|);
    } else {
      RemainderIs(|digits|, size, 1, 0);
    }
  }

  lemma Distribute(a: int, b: int, c: int)
    ensures (a - b) * c == a * c - b * c
  {
  }

  lemma {:induction false} SameRemainder(n: int, size: int)
    requires 1 <= size < n
    ensures (n - size) % size == n % size
  {
    var q, r := n / size, n % size;
    Distribute(q, 1, size);
    RemainderIs(n - size, size, q - 1, r);
  }

  lemma AtLeastOnce(k: int, size: int)
    requires k >= 1 && size >= 1
    ensures k * size >= size
  {
    Distribute(k, 1, size);
  }

  lemma {:induction false} RemainderIs(n: int, size: int, q: int, r: int)
    requires 1 <= size && 0 <= r < size && n == q * size + r
    ensures n % size == r
  {
    var p := n / size;
    assert n == p * size + n % size;
    Distribute(p, q, size);
    Distribute(q, p, size);
    if p < q {
      AtLeastOnce(q - p, size);
    } else if q < p {
      AtLeastOnce(p - q, size);
    }
  }

  lemma {:induction false} JoinFirst(first: string, rest: seq<string>, sep: string)
    ensures Join([first] + rest, sep) == if rest == [] then first else first + sep + Join(rest, sep)
    decreases |rest|
  {
    if rest != [] {
      var n := |rest| - 1;
      assert ([first] + rest)[..|rest|] == [first] + rest[..n];
      JoinFirst(first, rest[..n], sep);
    }
  }

  lemma {:induction false} SignOnGroups(digits: string, size: int, sep: string)
    requires 1 <= size && digits != "" && sep != ""
    ensures Join(Groups("-" + digits, size), sep)
         == (if |digits| % size == 0 then "-" + sep else "-") + Join(Groups(digits, size), sep)
  {
    var r := Groups(digits, size);
    var first, rest := r[0], r[1..];
    assert r == [first] + rest;
    SignInFront('-', digits, size);
    assert |first| < size <==> |digits| % size != 0 by {
      FirstGroupFull(digits, size);
      GroupsExact(digits, size);
    }
    if |first| < size {
      SignOnFirst(first, rest, sep);
    } else {
      JoinFirst("-", r, sep);
    }
  }

  lemma SignOnFirst(first: string, rest: seq<string>, sep: string)
    ensures Join(["-" + first] + rest, sep) == "-" + Join([first] + rest, sep)
  {
    JoinFirst("-" + first, rest, sep);
    JoinFirst(first, rest, sep);
    if rest != [] {
      Assoc("-", first, sep, Join(rest, sep));
    }
  }

  /**
   * A minus sign is grouped like a digit: the result is the formatted absolute value with the sign in
   * front exactly when the integer digits do not fill whole groups. Otherwise a separator follows the
   * sign, as in "-,123".
   */
  lemma {:induction false} SignKeptIff(text: string, size: int, sep: string, mark: string)
    requires 1 <= size && PointAt(text) > 0 && sep != ""
    ensures Formatted("-" + text, size, sep, mark) == "-" + Formatted(text, size, sep, mark)
       <==> PointAt(text) % size != 0
  {
    var signed, p := "-" + text, PointAt(text);
    assert signed[1..] == text;
    assert signed[..p + 1] == "-" + text[..p];
    assert signed[p + 1..] == text[p..];
    SignOnGroups(text[..p], size, sep);
    assert Fraction(signed, mark) == Fraction(text, mark);
    SignLength(Formatted(signed, size, sep, mark), Join(Groups(text[..p], size), sep), Fraction(text, mark), sep, p % size == 0);
  }

  lemma SignLength(result: string, whole: string, fraction: string, sep: string, full: bool)
    requires sep != "" && result == (if full then "-" + sep else "-") + whole + fraction
    ensures result == "-" + (whole + fraction) <==> !full
  {
    if full {
      assert |result| == 1 + |sep| + |whole| + |fraction|;
    }
  }
}
