/** Options and the few C and C++ string operations the controller relies on. */
module Text {

  datatype Option<+T> = None | Some(value: T)

  /** Position of the first `c` in `s`, or |s| when there is none. */
  function IndexOf(s: string, c: char): (i: nat)
    ensures i <= |s|
    ensures i < |s| ==> s[i] == c
    ensures c !in s[..i]
  {
    if s == "" || s[0] == c then 0 else
    var i := 1 + IndexOf(s[1..], c);
    assert s[..i] == [s[0]] + s[1..][..i - 1];
    i
  }

  /** What a constructor taking `s.c_str()` sees: the text before the first NUL. */
  function CString(s: string): string {
    s[..IndexOf(s, '\0')]
  }

  /** `p` occurs in `s` at position `i`. */
  predicate OccursAt(s: string, p: string, i: int) {
    0 <= i <= |s| - |p| && s[i..i + |p|] == p
  }

  /** `std::string::find` from position `start`; -1 stands for `npos`. */
  function Find(s: string, p: string, start: nat := 0): (i: int)
    requires start <= |s|
    ensures i == -1 || (start <= i && OccursAt(s, p, i))
    ensures forall j {:trigger OccursAt(s, p, j)} :: start <= j && (i == -1 || j < i) ==> !OccursAt(s, p, j)
    decreases |s| - start
  {
    if OccursAt(s, p, start) then start
    else if start == |s| then -1
    else Find(s, p, start + 1)
  }

  /** `std::tolower` in the C locale. */
  function ToLower(c: char): char {
    if 'A' <= c <= 'Z' then c - 'A' + 'a' else c
  }

  function Lowered(s: string): string {
    seq(|s|, i requires 0 <= i < |s| => ToLower(s[i]))
  }

  lemma Assoc<T>(a: seq<T>, b: seq<T>, c: seq<T>)
    ensures a + (b + c) == a + b + c && a + [] == a
  {
  }
}
