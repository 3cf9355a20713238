/** The account names under which vault items are stored, and why no two items share one. */
module VaultKeys {
  import opened VaultModel

  function Digit(d: nat): (c: char)
    requires d < 10
    ensures '0' <= c <= '9'
  {
    '0' + d as char
  }

  function Decimal(n: nat): string {
    if n < 10 then [Digit(n)] else Decimal(n / 10) + [Digit(n % 10)]
  }

  /** A chunk is stored as "<generation>.<index>", the other items under fixed names. */
  function Name(k: Key): string {
    match k
    case AccountKey => "account"
    case CleanupKey => "cleanup"
    case SingleKey => "credential"
    case ChunkKey(generation, index) => generation + "." + Decimal(index)
  }

  lemma {:induction false} DecimalInjective(m: nat, n: nat)
    requires Decimal(m) == Decimal(n)
    ensures m == n
  {
    DecimalNonempty(m);
    DecimalNonempty(n);
    if m >= 10 && n >= 10 {
      assert Decimal(m / 10) == Decimal(m)[..|Decimal(m)| - 1] == Decimal(n)[..|Decimal(n)| - 1] == Decimal(n / 10);
      assert Decimal(m)[|Decimal(m)| - 1] == Digit(m % 10) && Decimal(n)[|Decimal(n)| - 1] == Digit(n % 10);
      DecimalInjective(m / 10, n / 10);
    } else if m < 10 && n < 10 {
      assert Decimal(m)[0] == Digit(m) && Decimal(n)[0] == Digit(n);
    }
  }

  lemma {:induction false} DecimalNonempty(n: nat)
    ensures |Decimal(n)| >= 1 && (n >= 10 ==> |Decimal(n)| >= 2)
  {
    if n >= 10 {
      DecimalNonempty(n / 10);
    }
  }

  /** The text before the first dot determines the rest. */
  lemma SplitAtDot(a: string, b: string, s: string, t: string)
    requires '.' !in a && '.' !in b && a + "." + s == b + "." + t
    ensures a == b && s == t
  {
    var whole := a + "." + s;
    assert whole[|a|] == '.' && whole[|b|] == '.';
    assert forall i | 0 <= i < |a| :: whole[i] == a[i];
    assert forall i | 0 <= i < |b| :: whole[i] == b[i];
    assert |a| == |b|;
    assert a == whole[..|a|] == b;
    assert s == whole[|a| + 1..] == t;
  }

  lemma OnlyChunksHaveDots(k: Key)
    ensures k.ChunkKey? <==> '.' in Name(k)
  {
    if k.ChunkKey? {
      assert Name(k)[|k.generation|] == '.';
    }
  }

  /** The names themselves. */
  lemma NamesAsStored(g: string, index: nat)
    ensures Name(AccountKey) == "account" && Name(CleanupKey) == "cleanup" && Name(SingleKey) == "credential"
    ensures Name(ChunkKey(g, index)) == g + "." + Decimal(index)
    ensures index < 10 ==> |Decimal(index)| == 1 && Decimal(index)[0] as int == '0' as int + index
    ensures index >= 10 ==> Decimal(index) == Decimal(index / 10) + Decimal(index % 10)
  {
  }

  /** Distinct items have distinct names, because a UUID holds no dot. */
  lemma NamesAreDistinct(k: Key, l: Key)
    requires k.ChunkKey? ==> '.' !in k.generation
    requires l.ChunkKey? ==> '.' !in l.generation
    ensures Name(k) == Name(l) <==> k == l
  {
    OnlyChunksHaveDots(k);
    OnlyChunksHaveDots(l);
    assert |"account"| == 7 && |"cleanup"| == 7 && |"credential"| == 10;
    assert "account"[0] == 'a' && "cleanup"[0] == 'c';
    if Name(k) == Name(l) && k.ChunkKey? {
      SplitAtDot(k.generation, l.generation, Decimal(k.index), Decimal(l.index));
      DecimalInjective(k.index, l.index);
    }
  }
}
