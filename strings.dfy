// The two string operations the class attribute is built and read back with:
// joining a list of class tokens with single spaces (Array.prototype.join(' '))
// and splitting a class string at every space (String.prototype.split(' ')).

module Strings {

  /** True when `s` contains no space character. */
  predicate SpaceFree(s: string) {
    forall i :: 0 <= i < |s| ==> s[i] != ' '
  }

  /** `parts.join(' ')`: the parts with one space between neighbours; "" when there are none. */
  function Join(parts: seq<string>): string
  {
    if |parts| == 0 then ""
    else if |parts| == 1 then parts[0]
    else parts[0] + " " + Join(parts[1..])
  }

  /** `s.split(' ')`: the pieces between consecutive spaces, empty pieces included. */
  function Split(s: string): (pieces: seq<string>)
    ensures |pieces| >= 1
    ensures forall i :: 0 <= i < |pieces| ==> SpaceFree(pieces[i])
  {
    if |s| == 0 then [""]
    else
      var rest := Split(s[1..]);
      if s[0] == ' ' then [""] + rest
      else [[s[0]] + rest[0]] + rest[1..]
  }

  /** The first part always opens the joined string. */
  lemma {:induction false} JoinStartsWithFirst(parts: seq<string>)
    requires |parts| >= 1
    ensures parts[0] <= Join(parts)
    ensures |parts| == 1 ==> Join(parts) == parts[0]
    ensures |parts| > 1 ==> parts[0] + " " <= Join(parts)
  {
    if |parts| > 1 {
      assert Join(parts) == (parts[0] + " ") + Join(parts[1..]);
    }
  }

  /** Joining two or three parts, written out. */
  lemma JoinSmall(x: string, y: string, z: string)
    ensures Join([x, y]) == x + " " + y
    ensures Join([x, y, z]) == x + " " + y + " " + z
  {
    assert [x, y][1..] == [y];
    assert [y, z][1..] == [z];
    assert [x, y, z][1..] == [y, z];
    assert Join([y, z]) == y + " " + z;
    assert Join([x, y, z]) == x + " " + (y + " " + z);
  }

  /** Joining a split string gives the string back, whatever it holds. */
  lemma {:induction false} JoinSplit(s: string)
    ensures Join(Split(s)) == s
    decreases |s|
  {
    if |s| > 0 {
      var rest := Split(s[1..]);
      JoinSplit(s[1..]);
      if s[0] == ' ' {
        assert Split(s) == [""] + rest;
        assert Join(Split(s)) == "" + " " + Join(rest);
        assert s == [s[0]] + s[1..];
      } else {
        var head := [s[0]] + rest[0];
        assert Split(s) == [head] + rest[1..];
        if |rest| == 1 {
          assert Join(Split(s)) == head;
          assert Join(rest) == rest[0];
        } else {
          assert Join(Split(s)) == head + " " + Join(rest[1..]);
          assert Join(rest) == rest[0] + " " + Join(rest[1..]);
        }
        assert s == [s[0]] + s[1..];
      }
    }
  }

  /** A space-free prefix followed by a space splits off as one whole piece. */
  lemma {:induction false} SplitAtFirstSpace(a: string, b: string)
    requires SpaceFree(a)
    ensures Split(a) == [a]
    ensures Split(a + " " + b) == [a] + Split(b)
    decreases |a|
  {
    if |a| == 0 {
      assert a + " " + b == [' '] + b;
      assert (a + " " + b)[1..] == b;
    } else {
      SplitAtFirstSpace(a[1..], b);
      assert (a + " " + b)[1..] == a[1..] + " " + b;
      assert [a[0]] + a[1..] == a;
    }
  }

  /** Splitting a join of space-free parts recovers the parts. */
  lemma {:induction false} SplitJoin(parts: seq<string>)
    requires |parts| >= 1
    requires forall i :: 0 <= i < |parts| ==> SpaceFree(parts[i])
    ensures Split(Join(parts)) == parts
  {
    if |parts| == 1 {
      SplitAtFirstSpace(parts[0], "");
    } else {
      SplitJoin(parts[1..]);
      SplitAtFirstSpace(parts[0], Join(parts[1..]));
      assert parts == [parts[0]] + parts[1..];
    }
  }
}
