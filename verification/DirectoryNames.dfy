/** Names of endpoint state directories: building them and parsing them back. */
module DirectoryNames {
  import opened Bytes

  const MIN_ID := 1
  const MAX_ID := 4095

  /** The restore preference is this order. */
  datatype DirKind = Current | Next | Backup | NextFailed
  {
    function Rank(): nat { match this case Current => 0 case Next => 1 case Backup => 2 case NextFailed => 3 }
  }

  function Suffix(kind: DirKind): string
  {
    match kind
    case Current => ""
    case Next => "_next"
    case Backup => "_stale"
    case NextFailed => "_next_fail"
  }

  predicate IsDigit(c: char) { '0' <= c <= '9' }

  function DigitChar(d: nat): (c: char)
    requires d < 10
    ensures IsDigit(c) && DigitOf(c) == d
  {
    ('0' as int + d) as char
  }

  function DigitOf(c: char): nat
    requires IsDigit(c)
  {
    c as int - '0' as int
  }

  /** `to_string` of an unsigned number. */
  function Decimal(n: nat): (s: string)
    ensures s != [] && forall c :: c in s ==> IsDigit(c)
  {
    (if n < 10 then [] else Decimal(n / 10)) + [DigitChar(n % 10)]
  }

  function DigitsValue(s: string): nat
    requires forall c :: c in s ==> IsDigit(c)
  {
    if s == [] then 0 else 10 * DigitsValue(s[..|s| - 1]) + DigitOf(s[|s| - 1])
  }

  /** `str::parse::<u16>`: an optional plus sign, then digits, within range. */
  function ParseU16(s: string): Option<u16>
  {
    var digits := if s != [] && s[0] == '+' then s[1..] else s;
    if digits == [] || exists c :: c in digits && !IsDigit(c) then None
    else if DigitsValue(digits) < 0x1_0000 then Some(DigitsValue(digits)) else None
  }

  function StripSuffix(s: string, suffix: string): (base: Option<string>)
    ensures base.Some? <==> exists b :: s == b + suffix
    ensures base.Some? ==> s == base.value + suffix
  {
    var n := |s| - |suffix|;
    if n >= 0 && s[n..] == suffix then
      assert s == s[..n] + suffix;
      Some(s[..n])
    else
      assert forall b :: |b + suffix| >= |suffix| && (b + suffix)[|b|..] == suffix;
      None
  }

  function DirName(id: nat, kind: DirKind): string { Decimal(id) + Suffix(kind) }

  function ParseBase(base: string, kind: DirKind): Option<(nat, DirKind)>
  {
    match ParseU16(base)
    case None => None
    case Some(id) => if Decimal(id) == base && MIN_ID <= id <= MAX_ID then Some((id, kind)) else None
  }

  /** `parse_dir_name`: the longest suffixes are tried first, and only the canonical
      spelling of an allocatable id is accepted. */
  function ParseDirName(name: string): Option<(nat, DirKind)>
  {
    var failed := StripSuffix(name, Suffix(NextFailed));
    var next := StripSuffix(name, Suffix(Next));
    var backup := StripSuffix(name, Suffix(Backup));
    if failed.Some? then ParseBase(failed.value, NextFailed)
    else if next.Some? then ParseBase(next.value, Next)
    else if backup.Some? then ParseBase(backup.value, Backup)
    else ParseBase(name, Current)
  }

  lemma {:induction false} DecimalValue(n: nat)
    ensures DigitsValue(Decimal(n)) == n
  {
    var s := Decimal(n);
    assert s[|s| - 1] == DigitChar(n % 10);
    if n < 10 {
      assert s[..|s| - 1] == [];
    } else {
      DecimalValue(n / 10);
      assert s[..|s| - 1] == Decimal(n / 10);
    }
  }

  lemma ParseDecimal(id: u16)
    ensures ParseU16(Decimal(id)) == Some(id)
  {
    DecimalValue(id);
    assert Decimal(id)[0] in Decimal(id);
  }

  /** The last character tells the kinds apart, so a name ends in one suffix only. */
  lemma SuffixUnique(id: nat, kind: DirKind, other: DirKind)
    requires other != kind && other != Current
    ensures StripSuffix(DirName(id, kind), Suffix(other)).None?
  {
    var name := DirName(id, kind);
    var digits := Decimal(id);
    var last := name[|name| - 1];
    assert last == if kind.Current? then digits[|digits| - 1] else Suffix(kind)[|Suffix(kind)| - 1];
    assert kind.Current? ==> last in digits;
  }

  lemma StripOwnSuffix(id: nat, kind: DirKind)
    ensures StripSuffix(DirName(id, kind), Suffix(kind)) == Some(Decimal(id))
  {
    var name := DirName(id, kind);
    assert name == Decimal(id) + Suffix(kind);
    var base := StripSuffix(name, Suffix(kind)).value;
    assert |base| == |Decimal(id)|;
    assert base == name[..|base|] && Decimal(id) == name[..|base|];
  }

  /** The names of an endpoint's directories. */
  lemma NamesSpelledOut(id: nat)
    ensures DirName(id, Next) == DirName(id, Current) + "_next"
    ensures DirName(id, Backup) == DirName(id, Current) + "_stale"
    ensures DirName(id, NextFailed) == DirName(id, Current) + "_next_fail"
    ensures DigitsValue(DirName(id, Current)) == id && (DirName(id, Current)[0] == '0' <==> id == 0)
    ensures forall c :: c in DirName(id, Current) ==> '0' <= c <= '9'
  {
    DecimalValue(id);
    LeadingDigit(id);
    hide Decimal, DigitsValue;
    assert Decimal(id) + "" == Decimal(id);
  }

  lemma {:induction false} LeadingDigit(n: nat)
    ensures Decimal(n)[0] == '0' <==> n == 0
  {
    if n >= 10 { LeadingDigit(n / 10); }
  }

  /** Directory names and (id, kind) pairs with an allocatable id are one-to-one:
      parsing accepts exactly the names the path functions build. */
  lemma NamesOneToOne(name: string, id: nat, kind: DirKind)
    ensures ParseDirName(name) == Some((id, kind)) <==> 1 <= id <= 4095 && name == DirName(id, kind)
  {
    if MIN_ID <= id <= MAX_ID && name == DirName(id, kind) {
      ParseDecimal(id);
      StripOwnSuffix(id, kind);
      if kind != NextFailed { SuffixUnique(id, kind, NextFailed); }
      if kind != Next { SuffixUnique(id, kind, Next); }
      if kind != Backup { SuffixUnique(id, kind, Backup); }
      assert kind.Current? ==> name == Decimal(id);
    }
    assert name + [] == name;
  }
}
