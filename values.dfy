/** PHP values as the mapper sees them: scalars in rows, ordered string-keyed
    arrays, the error kinds the core raises, and the PHP conversions
    `(int)`, `(bool)` and `(string)` that the casts are built from. */
module Values {

  /** A value stored in a row. `Converted` stands for the result of a
      conversion the model keeps symbolic (floats, dates, JSON, and the
      conversions of such values). */
  datatype Value =
    | Null
    | Int(i: int)
    | Bool(b: bool)
    | Str(s: string)
    | Converted(kind: string, source: Value)

  type Row = map<string, Value>

  datatype Option<+T> = None | Some(value: T) {
    function GetOr(default: T): T {
      if Some? then value else default
    }
  }

  /** The exceptions the core raises. The first three are the source's
      `RuntimeException`s, told apart by their cause: a refused state, an
      unknown column or relation name, an invalid cast. `LanguageError` is
      an error PHP itself raises on the code as written (an undefined
      method, a method called on a non-object, a missing constructor
      argument, an illegal array offset). */
  datatype Error =
    | InvalidState(message: string)
    | NotFound(message: string)
    | CastError(message: string)
    | LanguageError(message: string)

  datatype Result<+T> = Ok(value: T) | Err(error: Error) {
    predicate IsFailure() {
      Err?
    }

    function PropagateFailure<U>(): Result<U>
      requires Err?
    {
      Err(error)
    }

    function Extract(): T
      requires Ok?
    {
      value
    }
  }

  // ---------------------------------------------------------------------
  // Ordered arrays with string keys

  /** A PHP array with string keys: the keys in insertion order and what
      each key is bound to. */
  datatype Assoc<V> = Assoc(keys: seq<string>, vals: map<string, V>) {
    ghost predicate Valid() {
      && (forall i, j :: 0 <= i < j < |keys| ==> keys[i] != keys[j])
      && (forall k :: k in vals <==> k in keys)
    }
  }

  type Arr<V> = a: Assoc<V> | a.Valid() witness Assoc([], map[])

  function EmptyArr<V>(): Arr<V> {
    Assoc([], map[])
  }

  /** `$a[$k] = $v`: an existing key keeps its position, a new key goes last. */
  function Put<V>(a: Arr<V>, k: string, v: V): Arr<V> {
    Assoc(if k in a.vals then a.keys else a.keys + [k], a.vals[k := v])
  }

  /** `$row[$k] ?? $absent` */
  function Lookup<V>(row: map<string, V>, k: string, absent: V): V {
    if k in row then row[k] else absent
  }

  predicate Distinct<T(==)>(s: seq<T>) {
    forall i, j :: 0 <= i < j < |s| ==> s[i] != s[j]
  }

  /** A sequence with one more element at the end is duplicate-free exactly
      when the shorter one is and does not already hold that element. */
  lemma DistinctSnoc<T>(s: seq<T>, x: T)
    ensures Distinct(s + [x]) <==> Distinct(s) && x !in s
  {
    var t := s + [x];
    if Distinct(t) {
      forall i, j | 0 <= i < j < |s| ensures s[i] != s[j] {
        assert s[i] == t[i] && s[j] == t[j];
      }
      forall k | 0 <= k < |s| ensures s[k] != x {
        assert s[k] == t[k] && x == t[|s|];
      }
    }
    if Distinct(s) && x !in s {
      forall i, j | 0 <= i < j < |t| ensures t[i] != t[j] {
        if j < |s| {
          assert t[i] == s[i] && t[j] == s[j];
        } else {
          assert t[i] == s[i];
        }
      }
    }
  }

  /** The first occurrence of every key `f(x)`, in order (`array_unique`
      with `f` the comparison key). */
  function UniqueBy<T, K(==)>(s: seq<T>, f: T -> K): seq<T> {
    UniqueFrom(s, f, {})
  }

  function UniqueFrom<T, K(==)>(s: seq<T>, f: T -> K, seen: set<K>): seq<T>
    decreases |s|
  {
    if s == [] then []
    else if f(s[0]) in seen then UniqueFrom(s[1..], f, seen)
    else [s[0]] + UniqueFrom(s[1..], f, seen + {f(s[0])})
  }

  /** `r` is `s` at the positions `idx`, none of whose keys is in `seen`. */
  ghost predicate PicksAt<T, K>(s: seq<T>, f: T -> K, seen: set<K>, r: seq<T>, idx: seq<int>) {
    |idx| == |r| && forall i :: 0 <= i < |idx| ==> 0 <= idx[i] < |s| && r[i] == s[idx[i]] && f(s[idx[i]]) !in seen
  }

  ghost predicate Increasing(idx: seq<int>) {
    forall i, j :: 0 <= i < j < |idx| ==> idx[i] < idx[j]
  }

  /** Each position in `idx` holds the first occurrence of its key. */
  ghost predicate OnlyFirstOccurrences<T, K>(s: seq<T>, f: T -> K, idx: seq<int>)
    requires forall i :: 0 <= i < |idx| ==> 0 <= idx[i] < |s|
  {
    forall i, k :: 0 <= i < |idx| && 0 <= k < idx[i] ==> f(s[k]) != f(s[idx[i]])
  }

  /** Every first occurrence of a key not in `seen` is in `idx`. */
  ghost predicate AllFirstOccurrences<T, K>(s: seq<T>, f: T -> K, seen: set<K>, idx: seq<int>) {
    forall j :: 0 <= j < |s| && f(s[j]) !in seen && (forall k :: 0 <= k < j ==> f(s[k]) != f(s[j])) ==> j in idx
  }

  /** `r` is `s` at the increasing positions `idx`, and those positions are
      exactly the first occurrences in `s` of the keys not in `seen`. */
  ghost predicate KeptAtFirstOccurrences<T, K>(s: seq<T>, f: T -> K, seen: set<K>, r: seq<T>, idx: seq<int>) {
    && PicksAt(s, f, seen, r, idx)
    && Increasing(idx)
    && OnlyFirstOccurrences(s, f, idx)
    && AllFirstOccurrences(s, f, seen, idx)
  }

  /** Positions in `s[1..]` shifted to positions in `s`. */
  function Shifted(idx: seq<int>): (r: seq<int>)
    ensures |r| == |idx| && forall i :: 0 <= i < |idx| ==> r[i] == idx[i] + 1
  {
    seq(|idx|, i requires 0 <= i < |idx| => idx[i] + 1)
  }

  /** The positions of `UniqueFrom(s, f, seen)` from those of the tail. */
  function StepPositions<T, K>(s: seq<T>, f: T -> K, seen: set<K>, idx': seq<int>): seq<int>
    requires s != []
  {
    if f(s[0]) in seen then Shifted(idx') else [0] + Shifted(idx')
  }

  lemma StepPicksAt<T, K>(s: seq<T>, f: T -> K, seen: set<K>, r': seq<T>, idx': seq<int>)
    requires s != [] && PicksAt(s[1..], f, seen + {f(s[0])}, r', idx')
    ensures PicksAt(s, f, seen, if f(s[0]) in seen then r' else [s[0]] + r', StepPositions(s, f, seen, idx'))
  {
    var idx := StepPositions(s, f, seen, idx');
    var r := if f(s[0]) in seen then r' else [s[0]] + r';
    forall i | 0 <= i < |idx|
      ensures 0 <= idx[i] < |s| && r[i] == s[idx[i]] && f(s[idx[i]]) !in seen
    {
      if f(s[0]) in seen || i > 0 {
        var i' := if f(s[0]) in seen then i else i - 1;
        assert idx[i] == idx'[i'] + 1 && r[i] == r'[i'];
        assert s[idx[i]] == s[1..][idx'[i']];
      }
    }
  }

  lemma StepIncreasing<T, K>(s: seq<T>, f: T -> K, seen: set<K>, idx': seq<int>)
    requires s != [] && Increasing(idx') && forall i :: 0 <= i < |idx'| ==> 0 <= idx'[i]
    ensures Increasing(StepPositions(s, f, seen, idx'))
  {
    var idx := StepPositions(s, f, seen, idx');
    forall i, j | 0 <= i < j < |idx|
      ensures idx[i] < idx[j]
    {
      if f(s[0]) !in seen && i > 0 {
        assert idx[i] == idx'[i - 1] + 1 && idx[j] == idx'[j - 1] + 1;
      } else if f(s[0]) !in seen {
        assert idx[j] == idx'[j - 1] + 1;
      }
    }
  }

  lemma StepOnlyFirst<T, K>(s: seq<T>, f: T -> K, seen: set<K>, r': seq<T>, idx': seq<int>)
    requires s != [] && PicksAt(s[1..], f, seen + {f(s[0])}, r', idx') && OnlyFirstOccurrences(s[1..], f, idx')
    ensures forall i :: 0 <= i < |StepPositions(s, f, seen, idx')| ==> 0 <= StepPositions(s, f, seen, idx')[i] < |s|
    ensures OnlyFirstOccurrences(s, f, StepPositions(s, f, seen, idx'))
  {
    var idx := StepPositions(s, f, seen, idx');
    var rest := s[1..];
    forall i | 0 <= i < |idx|
      ensures 0 <= idx[i] < |s|
    {
      if f(s[0]) in seen || i > 0 {
        var i' := if f(s[0]) in seen then i else i - 1;
        assert idx[i] == idx'[i'] + 1;
      }
    }
    forall i, k | 0 <= i < |idx| && 0 <= k < idx[i]
      ensures f(s[k]) != f(s[idx[i]])
    {
      var i' := if f(s[0]) in seen then i else i - 1;
      assert 0 <= i' < |idx'| && idx[i] == idx'[i'] + 1;
      assert s[idx[i]] == rest[idx'[i']];
      if k > 0 {
        assert s[k] == rest[k - 1];
      }
    }
  }

  lemma StepAllFirst<T, K>(s: seq<T>, f: T -> K, seen: set<K>, idx': seq<int>)
    requires s != [] && AllFirstOccurrences(s[1..], f, seen + {f(s[0])}, idx')
    ensures AllFirstOccurrences(s, f, seen, StepPositions(s, f, seen, idx'))
  {
    var idx := StepPositions(s, f, seen, idx');
    var rest := s[1..];
    forall j | 0 <= j < |s| && f(s[j]) !in seen && (forall k :: 0 <= k < j ==> f(s[k]) != f(s[j]))
      ensures j in idx
    {
      if j > 0 {
        assert f(s[0]) != f(s[j]);
        assert s[j] == rest[j - 1];
        forall k | 0 <= k < j - 1
          ensures f(rest[k]) != f(rest[j - 1])
        {
          assert rest[k] == s[k + 1];
        }
        assert j - 1 in idx';
        var i :| 0 <= i < |idx'| && idx'[i] == j - 1;
        assert Shifted(idx')[i] == j;
        if f(s[0]) !in seen {
          assert idx[i + 1] == j;
        }
      }
    }
  }

  lemma StepKept<T, K>(s: seq<T>, f: T -> K, seen: set<K>, r': seq<T>, idx': seq<int>)
    requires s != [] && KeptAtFirstOccurrences(s[1..], f, seen + {f(s[0])}, r', idx')
    ensures KeptAtFirstOccurrences(s, f, seen, if f(s[0]) in seen then r' else [s[0]] + r', StepPositions(s, f, seen, idx'))
  {
    StepPicksAt(s, f, seen, r', idx');
    StepIncreasing(s, f, seen, idx');
    StepOnlyFirst(s, f, seen, r', idx');
    StepAllFirst(s, f, seen, idx');
  }

  /** The positions `UniqueFrom` keeps: the first occurrence of each key
      not yet seen, in input order. */
  lemma {:induction false} UniqueFromPositions<T, K>(s: seq<T>, f: T -> K, seen: set<K>)
    ensures exists idx :: KeptAtFirstOccurrences(s, f, seen, UniqueFrom(s, f, seen), idx)
    decreases |s|
  {
    if s == [] {
      assert KeptAtFirstOccurrences(s, f, seen, UniqueFrom(s, f, seen), []);
    } else {
      var seen' := seen + {f(s[0])};
      var r' := UniqueFrom(s[1..], f, seen');
      UniqueFromPositions(s[1..], f, seen');
      var idx' :| KeptAtFirstOccurrences(s[1..], f, seen', r', idx');
      StepKept(s, f, seen, r', idx');
      assert UniqueFrom(s, f, seen) == if f(s[0]) in seen then r' else [s[0]] + r' by {
        if f(s[0]) in seen {
          assert seen' == seen;
        }
      }
    }
  }

  /** Keeping first occurrences yields pairwise distinct keys, loses no key
      and only keeps elements of the input; the kept elements are the first
      occurrence of each key not yet seen, in their input order. */
  lemma {:induction false} UniqueFromSpec<T, K>(s: seq<T>, f: T -> K, seen: set<K>)
    ensures forall i, j :: 0 <= i < j < |UniqueFrom(s, f, seen)| ==>
              f(UniqueFrom(s, f, seen)[i]) != f(UniqueFrom(s, f, seen)[j])
    ensures forall i :: 0 <= i < |UniqueFrom(s, f, seen)| ==>
              UniqueFrom(s, f, seen)[i] in s && f(UniqueFrom(s, f, seen)[i]) !in seen
    ensures forall x :: x in s && f(x) !in seen ==>
              exists y :: y in UniqueFrom(s, f, seen) && f(y) == f(x)
    ensures exists idx :: KeptAtFirstOccurrences(s, f, seen, UniqueFrom(s, f, seen), idx)
    decreases |s|
  {
    UniqueFromPositions(s, f, seen);
    if s != [] {
      var rest := s[1..];
      if f(s[0]) in seen {
        UniqueFromSpec(rest, f, seen);
        forall x | x in s && f(x) !in seen
          ensures exists y :: y in UniqueFrom(s, f, seen) && f(y) == f(x)
        {
          assert x in rest;
        }
      } else {
        var seen' := seen + {f(s[0])};
        UniqueFromSpec(rest, f, seen');
        var u := UniqueFrom(s, f, seen);
        assert u == [s[0]] + UniqueFrom(rest, f, seen');
        forall x | x in s && f(x) !in seen
          ensures exists y :: y in u && f(y) == f(x)
        {
          if f(x) == f(s[0]) {
            assert s[0] in u;
          } else {
            assert x in rest;
            var y :| y in UniqueFrom(rest, f, seen') && f(y) == f(x);
            assert y in u;
          }
        }
      }
    }
  }

  /** Nothing is kept once every key has been seen. */
  lemma {:induction false} UniqueFromSeen<T, K>(s: seq<T>, f: T -> K, seen: set<K>)
    requires forall i :: 0 <= i < |s| ==> f(s[i]) in seen
    ensures UniqueFrom(s, f, seen) == []
    decreases |s|
  {
    if s != [] {
      UniqueFromSeen(s[1..], f, seen);
    }
  }

  /** `array_unique`: distinct keys, only input elements, every key kept,
      and what is kept is the first element of each key, in input order. */
  lemma UniqueBySpec<T, K>(s: seq<T>, f: T -> K)
    ensures forall i, j :: 0 <= i < j < |UniqueBy(s, f)| ==> f(UniqueBy(s, f)[i]) != f(UniqueBy(s, f)[j])
    ensures forall x :: x in UniqueBy(s, f) ==> x in s
    ensures forall x :: x in s ==> exists y :: y in UniqueBy(s, f) && f(y) == f(x)
    ensures exists idx :: KeptAtFirstOccurrences(s, f, {}, UniqueBy(s, f), idx)
  {
    UniqueFromSpec(s, f, {});
  }

  /** `implode($sep, $parts)` */
  function Join(parts: seq<string>, sep: string): string {
    if |parts| == 0 then ""
    else if |parts| == 1 then parts[0]
    else parts[0] + sep + Join(parts[1..], sep)
  }

  /** The joined string is at least as long as each part, and longer than
      each when there are several parts and the separator is not empty. */
  lemma {:induction false} JoinLonger(parts: seq<string>, sep: string)
    ensures forall x :: x in parts ==> |x| <= |Join(parts, sep)|
    ensures |parts| > 1 && sep != [] ==> forall x :: x in parts ==> |x| < |Join(parts, sep)|
    decreases |parts|
  {
    if |parts| > 1 {
      var rest := parts[1..];
      JoinLonger(rest, sep);
      assert |Join(parts, sep)| == |parts[0]| + |sep| + |Join(rest, sep)|;
      forall x | x in parts
        ensures |x| <= |Join(parts, sep)| && (sep != [] ==> |x| < |Join(parts, sep)|)
      {
        if x != parts[0] {
          assert x in rest;
        }
      }
    }
  }

  // ---------------------------------------------------------------------
  // Decimal integers

  predicate IsDigit(c: char) {
    '0' <= c <= '9'
  }

  predicate AllDigits(s: string) {
    forall k :: 0 <= k < |s| ==> IsDigit(s[k])
  }

  function DigitChar(d: nat): char
    requires d < 10
  {
    (48 + d) as char
  }

  /** The decimal digits of `n`, without leading zeros. */
  function NatToString(n: nat): string
    decreases n
  {
    if n < 10 then [DigitChar(n)] else NatToString(n / 10) + [DigitChar(n % 10)]
  }

  /** `(string)$i` for an integer. */
  function IntToString(i: int): string {
    if i < 0 then "-" + NatToString(-i) else NatToString(i)
  }

  function DigitsValue(d: string): nat
    requires AllDigits(d)
  {
    if d == [] then 0 else DigitsValue(d[..|d| - 1]) * 10 + (d[|d| - 1] as int - 48)
  }

  /** The longest prefix of `s` made of decimal digits. */
  function LeadingDigits(s: string): (d: string)
    ensures AllDigits(d) && d <= s
    ensures d == s || !IsDigit(s[|d|])
  {
    if s != [] && IsDigit(s[0]) then [s[0]] + LeadingDigits(s[1..]) else ""
  }

  predicate IsSpace(c: char) {
    c == ' ' || c == '\t' || c == '\n' || c == '\r' || c == '\U{0B}' || c == '\U{0C}'
  }

  function SkipSpace(s: string): string {
    if s != [] && IsSpace(s[0]) then SkipSpace(s[1..]) else s
  }

  /** `PHP_INT_MAX` and `PHP_INT_MIN`: PHP integers are 64 bits wide. */
  const PhpIntMax: int := 0x7FFF_FFFF_FFFF_FFFF
  const PhpIntMin: int := -0x8000_0000_0000_0000

  predicate IsPhpInt(i: int) {
    PhpIntMin <= i <= PhpIntMax
  }

  /** A number outside the 64-bit range is cut to the nearer bound, as
      `(int)` does with a numeric string too large for an integer. */
  function Saturated(i: int): int {
    if i > PhpIntMax then PhpIntMax else if i < PhpIntMin then PhpIntMin else i
  }

  /** `(int)$s` for a string: leading white space, an optional sign, then
      the longest run of digits, saturated to the 64-bit range; a string
      without digits reads as 0. */
  function StringToInt(s: string): (r: int)
    ensures IsPhpInt(r)
  {
    var t := SkipSpace(s);
    if t != [] && t[0] == '-' then Saturated(-(DigitsValue(LeadingDigits(t[1..])) as int))
    else if t != [] && t[0] == '+' then Saturated(DigitsValue(LeadingDigits(t[1..])))
    else Saturated(DigitsValue(LeadingDigits(t)))
  }

  lemma {:induction false} NatToStringDigits(n: nat)
    ensures NatToString(n) != [] && AllDigits(NatToString(n))
    ensures DigitsValue(NatToString(n)) == n
    decreases n
  {
    if n >= 10 {
      NatToStringDigits(n / 10);
      var s := NatToString(n / 10) + [DigitChar(n % 10)];
      assert s[..|s| - 1] == NatToString(n / 10);
    }
  }

  lemma {:induction false} LeadingDigitsOfDigits(s: string)
    requires AllDigits(s)
    ensures LeadingDigits(s) == s
    decreases |s|
  {
    if s != [] {
      LeadingDigitsOfDigits(s[1..]);
    }
  }

  /** Printing an integer and reading it back with `(int)` gives it back,
      cut to the 64-bit range; a PHP integer comes back unchanged. */
  lemma IntStringRoundTrip(i: int)
    ensures StringToInt(IntToString(i)) == Saturated(i)
    ensures IsPhpInt(i) ==> StringToInt(IntToString(i)) == i
  {
    var n: nat := if i < 0 then -i else i;
    NatToStringDigits(n);
    LeadingDigitsOfDigits(NatToString(n));
    var d := NatToString(n);
    assert d[0] != '-' && d[0] != '+' && !IsSpace(d[0]) by {
      assert IsDigit(d[0]);
    }
    if i < 0 {
      var t := "-" + d;
      assert SkipSpace(t) == t;
      assert t[1..] == d;
    } else {
      assert SkipSpace(d) == d;
    }
  }

  // ---------------------------------------------------------------------
  // PHP conversions

  /** `(int)$v` */
  function ToIntValue(v: Value): Value {
    match v
    case Null => Int(0)
    case Int(_) => v
    case Bool(b) => Int(if b then 1 else 0)
    case Str(s) => Int(StringToInt(s))
    case Converted(_, _) => Converted("int", v)
  }

  /** `(bool)$v`: "" and "0" are the false strings. */
  function ToBoolValue(v: Value): Value {
    match v
    case Null => Bool(false)
    case Int(i) => Bool(i != 0)
    case Bool(_) => v
    case Str(s) => Bool(s != "" && s != "0")
    case Converted(_, _) => Converted("bool", v)
  }

  /** `(string)$v` as an optional string (None for a symbolic value). */
  function StringForm(v: Value): Option<string> {
    match v
    case Null => Some("")
    case Int(i) => Some(IntToString(i))
    case Bool(b) => Some(if b then "1" else "")
    case Str(s) => Some(s)
    case Converted(_, _) => None
  }

  /** `(string)$v` */
  function ToStringValue(v: Value): Value {
    match StringForm(v)
    case Some(s) => Str(s)
    case None => Converted("string", v)
  }
}
