/** The checkbox caption built from a camelCase key:
    `key.replace(/([A-Z])/g, ' $1').replace(/^./, str => str.toUpperCase())`. */
module Labels {

  predicate IsCapital(c: char)
  {
    'A' <= c <= 'Z'
  }

  /** The characters `.` does not match in a regular expression without the `s` flag. */
  predicate IsLineTerminator(c: char)
  {
    c == '\n' || c == '\r' || c == '\U{2028}' || c == '\U{2029}'
  }

  function ToUpper(c: char): (r: char)
    ensures 'a' <= c <= 'z' ==> IsCapital(r) && ToLower(r) == c
    ensures !('a' <= c <= 'z') ==> r == c
  {
    if 'a' <= c <= 'z' then (c as int - 32) as char else c
  }

  function ToLower(c: char): char
  {
    if IsCapital(c) then (c as int + 32) as char else c
  }

  function CountCapitals(s: string): nat
  {
    if s == [] then 0 else (if IsCapital(s[0]) then 1 else 0) + CountCapitals(s[1..])
  }

  /** `replace(/([A-Z])/g, ' $1')`: a space in front of every capital letter. */
  function SpaceBeforeCapitals(s: string): (r: string)
    ensures |r| == |s| + CountCapitals(s)
    ensures s != [] && !IsCapital(s[0]) ==> r != [] && r[0] == s[0]
    ensures forall i :: 0 <= i < |r| && IsCapital(r[i]) ==> i > 0 && r[i - 1] == ' '
  {
    if s == [] then []
    else
      var head := if IsCapital(s[0]) then [' ', s[0]] else [s[0]];
      var rest := SpaceBeforeCapitals(s[1..]);
      assert forall i :: |head| <= i < |head| + |rest| ==> (head + rest)[i] == rest[i - |head|];
      head + rest
  }

  /** `replace(/^./, str => str.toUpperCase())`: only the first character can change,
      and not at all when it is a line terminator. */
  function UpperFirst(s: string): (r: string)
    ensures |r| == |s|
    ensures forall i :: 0 < i < |s| ==> r[i] == s[i]
    ensures s != [] && !IsLineTerminator(s[0]) ==> r[0] == ToUpper(s[0])
    ensures s != [] && IsLineTerminator(s[0]) ==> r == s
  {
    if s == [] || IsLineTerminator(s[0]) then s else [ToUpper(s[0])] + s[1..]
  }

  /** The caption: one character more for every capital letter, and a key that
      starts lower-case starts its caption with that letter's capital. */
  function Label(key: string): (r: string)
    ensures |r| == |key| + CountCapitals(key)
    ensures key != [] && 'a' <= key[0] <= 'z' ==> IsCapital(r[0]) && ToLower(r[0]) == key[0]
    ensures forall i :: 0 < i < |r| && IsCapital(r[i]) ==> r[i - 1] == ' '
  {
    UpperFirst(SpaceBeforeCapitals(key))
  }

  function RemoveSpaces(s: string): (r: string)
    ensures ' ' !in r
  {
    if s == [] then [] else (if s[0] == ' ' then [] else [s[0]]) + RemoveSpaces(s[1..])
  }

  function LowerFirst(s: string): string
  {
    if s == [] then s else [ToLower(s[0])] + s[1..]
  }

  /** Reading a caption back: drop the spaces, lower-case the first letter. */
  function Unlabel(caption: string): string
  {
    LowerFirst(RemoveSpaces(caption))
  }

  /** The inserted spaces are the only spaces, so removing them restores the key. */
  lemma {:induction false} RemoveInsertedSpaces(s: string)
    requires ' ' !in s
    ensures RemoveSpaces(SpaceBeforeCapitals(s)) == s
  {
    if s != [] {
      var head := if IsCapital(s[0]) then [' ', s[0]] else [s[0]];
      assert SpaceBeforeCapitals(s) == head + SpaceBeforeCapitals(s[1..]);
      RemoveSpacesAppend(head, SpaceBeforeCapitals(s[1..]));
      assert ' ' !in s[1..] by {
        forall i | 0 <= i < |s[1..]| ensures s[1..][i] != ' ' {
          assert s[1..][i] == s[i + 1];
        }
      }
      RemoveInsertedSpaces(s[1..]);
      assert RemoveSpaces(head) == [s[0]];
      assert s == [s[0]] + s[1..];
    }
  }

  lemma {:induction false} RemoveSpacesAppend(a: string, b: string)
    ensures RemoveSpaces(a + b) == RemoveSpaces(a) + RemoveSpaces(b)
  {
    if a == [] {
      assert a + b == b;
    } else {
      var head := if a[0] == ' ' then [] else [a[0]];
      assert (a + b)[0] == a[0] && (a + b)[1..] == a[1..] + b;
      assert RemoveSpaces(a + b) == head + RemoveSpaces(a[1..] + b);
      RemoveSpacesAppend(a[1..], b);
      assert RemoveSpaces(a) == head + RemoveSpaces(a[1..]);
    }
  }

  /** For a camelCase key that starts with a lower-case letter and has no spaces,
      the caption determines the key. */
  lemma UnlabelInvertsLabel(key: string)
    requires key != [] && 'a' <= key[0] <= 'z' && ' ' !in key
    ensures Unlabel(Label(key)) == key
  {
    var spaced := SpaceBeforeCapitals(key);
    RemoveInsertedSpaces(key);
    assert spaced[0] == key[0];
    var upper := UpperFirst(spaced);
    assert upper == [ToUpper(key[0])] + spaced[1..];
    RemoveSpacesAppend([ToUpper(key[0])], spaced[1..]);
    RemoveSpacesAppend([key[0]], spaced[1..]);
    assert spaced == [key[0]] + spaced[1..];
  }
}
