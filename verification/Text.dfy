/** String operations shared by several components. */
module Text {
  function JoinWith(parts: seq<string>, separator: string): string {
    if parts == [] then ""
    else if |parts| == 1 then parts[0]
    else parts[0] + separator + JoinWith(parts[1..], separator)
  }

  /** Joining one more part adds a separator and the part. */
  lemma {:induction false} JoinOneMore(parts: seq<string>, separator: string, part: string)
    requires parts != []
    ensures JoinWith(parts + [part], separator) == JoinWith(parts, separator) + separator + part
    ensures JoinWith([part], separator) == part && JoinWith([], separator) == ""
  {
    var more := parts + [part];
    if |parts| == 1 {
      assert more[1..] == [part];
    } else {
      assert more[1..] == parts[1..] + [part];
      JoinOneMore(parts[1..], separator, part);
      var rest := JoinWith(parts[1..], separator);
      assert parts[0] + separator + (rest + separator + part) == parts[0] + separator + rest + separator + part;
    }
  }

  ghost predicate Contains(s: string, part: string) {
    exists before, after :: s == before + part + after
  }

  lemma ContainedFurther(s: string, before: string, after: string, part: string)
    requires Contains(s, part)
    ensures Contains(before + s + after, part)
  {
    var x, y :| s == x + part + y;
    assert before + s + after == (before + x) + part + (y + after);
  }

  lemma ContainsItself(s: string)
    ensures Contains(s, s)
  {
    assert s == "" + s + "";
  }

  /** Joining keeps every part. */
  lemma {:induction false} JoinKeepsParts(parts: seq<string>, separator: string, i: nat)
    requires i < |parts|
    ensures Contains(JoinWith(parts, separator), parts[i])
  {
    ContainsItself(parts[i]);
    if |parts| > 1 {
      var rest := JoinWith(parts[1..], separator);
      if i == 0 {
        ContainedFurther(parts[0], "", separator + rest, parts[0]);
        assert "" + parts[0] + (separator + rest) == JoinWith(parts, separator);
      } else {
        JoinKeepsParts(parts[1..], separator, i - 1);
        ContainedFurther(rest, parts[0] + separator, "", parts[i]);
        assert parts[0] + separator + rest + "" == JoinWith(parts, separator);
      }
    }
  }

  predicate StartsWith(s: string, prefix: string) { |prefix| <= |s| && s[..|prefix|] == prefix }

  function LastSlash(path: string): (i: int)
    ensures -1 <= i < |path| && (i >= 0 ==> path[i] == '/')
    ensures forall j :: i < j < |path| ==> path[j] != '/'
  {
    if path == "" then -1
    else if path[|path| - 1] == '/' then |path| - 1
    else LastSlash(path[..|path| - 1])
  }

  /** The parent folder of a path, or `atRoot` for a path without one. */
  function ParentOr(path: string, atRoot: string): string {
    if LastSlash(path) < 0 then atRoot
    else if LastSlash(path) == 0 then "/"
    else path[..LastSlash(path)]
  }

  /** What stands before the last slash is the parent; without a slash there is none. */
  lemma ParentOfJoined(folder: string, name: string, atRoot: string)
    requires '/' !in name
    ensures ParentOr(folder + "/" + name, atRoot) == if folder == "" then "/" else folder
    ensures ParentOr(name, atRoot) == atRoot
  {
    var path := folder + "/" + name;
    assert path[|folder|] == '/' && path[|folder| + 1..] == name && path[..|folder|] == folder;
    assert forall j :: |folder| < j < |path| ==> path[j] == name[j - |folder| - 1];
  }

  /** Every path has one of those two shapes. */
  lemma PathShapes(path: string)
    ensures '/' !in path || exists folder, name :: '/' !in name && path == folder + "/" + name
  {
    var i := LastSlash(path);
    if i >= 0 {
      var folder, name := path[..i], path[i + 1..];
      assert path == folder + "/" + name && '/' !in name;
    }
  }

  /** Decimal notation, most significant digit first. */
  function Decimal(n: nat): string {
    if n < 10 then [('0' as int + n) as char] else Decimal(n / 10) + [('0' as int + n % 10) as char]
  }

  predicate IsDigit(c: char) { '0' <= c <= '9' }

  /** The number some digits stand for. */
  function NumberOf(digits: string): nat
    requires forall c <- digits :: IsDigit(c)
  {
    if digits == "" then 0
    else
      var last := digits[|digits| - 1];
      assert last in digits && IsDigit(last);
      10 * NumberOf(digits[..|digits| - 1]) + (last as int - '0' as int)
  }

  /** The notation is of digits, without leading zeros, and stands for the number. */
  lemma {:induction false} DecimalStandsFor(n: nat)
    ensures Decimal(n) != "" && forall c <- Decimal(n) :: IsDigit(c)
    ensures NumberOf(Decimal(n)) == n && (n > 0 ==> Decimal(n)[0] != '0')
  {
    if n >= 10 {
      DecimalStandsFor(n / 10);
      var rest := Decimal(n / 10);
      assert Decimal(n)[..|rest|] == rest;
    }
  }

  lemma DecimalIsInjective(m: nat, n: nat)
    requires Decimal(m) == Decimal(n)
    ensures m == n
  {
    DecimalStandsFor(m);
    DecimalStandsFor(n);
  }

  /** Where a separator stands last, it splits the text in one way. */
  lemma SplitAtLast(a: string, x: string, b: string, y: string, separator: char)
    requires separator !in x && separator !in y && a + [separator] + x == b + [separator] + y
    ensures a == b && x == y
  {
    var s, t := a + [separator] + x, b + [separator] + y;
    assert s[|a|] == separator && t[|b|] == separator;
    assert forall i :: |a| < i < |s| ==> s[i] == x[i - |a| - 1];
    assert forall i :: |b| < i < |t| ==> t[i] == y[i - |b| - 1];
    assert |a| == |b|;
    assert a == s[..|a|] && b == t[..|b|] && x == s[|a| + 1..] && y == t[|b| + 1..];
  }
}
