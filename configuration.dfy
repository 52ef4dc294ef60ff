/**
 * The register verification engine over the whole configuration table: one
 * configuration pass, which checks (and, where needed, corrects) every entry
 * in table order without stopping at the first failure, and the round-robin
 * cursor of the incremental health check.
 */
module Configuration {
  import opened Registers

  /** The register file and the success flag after checking a prefix of the table. */
  datatype Pass = Pass(regs: RegisterFile, ok: bool)

  /** The effect of checking the first k entries of the table, in order, with correction. */
  function ConfigurePrefix(regs: RegisterFile, cfg: seq<RegisterConfig>, k: nat): Pass
    requires k <= |cfg|
    decreases k
  {
    if k == 0 then Pass(regs, true)
    else
      var p := ConfigurePrefix(regs, cfg, k - 1);
      var e := cfg[k - 1];
      var v := p.regs[e.reg];
      if CheckPasses(v, e) then Pass(p.regs, p.ok)
      else Pass(p.regs[e.reg := SetAndClear(v, e.setBits, e.clearBits)], false)
  }

  /** One full configuration pass over the table. */
  function ConfigurePass(regs: RegisterFile, cfg: seq<RegisterConfig>): Pass
  {
    ConfigurePrefix(regs, cfg, |cfg|)
  }

  /** Every entry of cfg targets a different register. */
  predicate DistinctRegisters(cfg: seq<RegisterConfig>)
  {
    forall i, j :: 0 <= i < j < |cfg| ==> cfg[i].reg != cfg[j].reg
  }

  /** The entries of the table before index k all pass on regs. */
  predicate AllPass(regs: RegisterFile, cfg: seq<RegisterConfig>, k: nat)
    requires k <= |cfg|
  {
    forall j :: 0 <= j < k ==> CheckPasses(regs[cfg[j].reg], cfg[j])
  }

  /** Register address a is not the target of any of the first k entries. */
  predicate Untargeted(cfg: seq<RegisterConfig>, k: nat, a: int)
    requires k <= |cfg|
  {
    forall j :: 0 <= j < k ==> cfg[j].reg != a
  }

  /**
   * A pass succeeds iff every entry passes on the register file as it was
   * BEFORE the pass (even when entries share a register), and a successful
   * pass writes nothing.
   */
  lemma {:induction false} ConfigureOkIff(regs: RegisterFile, cfg: seq<RegisterConfig>, k: nat)
    requires k <= |cfg|
    ensures ConfigurePrefix(regs, cfg, k).ok <==> AllPass(regs, cfg, k)
    ensures ConfigurePrefix(regs, cfg, k).ok ==> ConfigurePrefix(regs, cfg, k).regs == regs
  {
    if k > 0 {
      ConfigureOkIff(regs, cfg, k - 1);
      var p := ConfigurePrefix(regs, cfg, k - 1);
      var e := cfg[k - 1];
    }
  }

  /** A pass leaves every register that no entry targets as it was. */
  lemma {:induction false} ConfigureKeepsUntargeted(regs: RegisterFile, cfg: seq<RegisterConfig>, k: nat, a: int)
    requires k <= |cfg| && 0 <= a < 256
    requires Untargeted(cfg, k, a)
    ensures ConfigurePrefix(regs, cfg, k).regs[a] == regs[a]
  {
    if k > 0 {
      assert Untargeted(cfg, k - 1, a);
      ConfigureKeepsUntargeted(regs, cfg, k - 1, a);
      assert cfg[k - 1].reg != a;
    }
  }

  /**
   * No short-circuit: with one entry per register, the pass leaves every
   * targeted register as that entry's check leaves it (corrected exactly
   * when it failed).
   */
  lemma {:induction false} ConfigureCorrectsEach(regs: RegisterFile, cfg: seq<RegisterConfig>, k: nat, j: nat)
    requires j < k <= |cfg|
    requires DistinctRegisters(cfg)
    ensures ConfigurePrefix(regs, cfg, k).regs[cfg[j].reg] == Fix(regs[cfg[j].reg], cfg[j])
  {
    var e := cfg[k - 1];
    var p := ConfigurePrefix(regs, cfg, k - 1);
    if j == k - 1 {
      assert Untargeted(cfg, k - 1, e.reg);
      ConfigureKeepsUntargeted(regs, cfg, k - 1, e.reg);
    } else {
      ConfigureCorrectsEach(regs, cfg, k - 1, j);
      assert cfg[j].reg != e.reg;
      assert ConfigurePrefix(regs, cfg, k).regs[cfg[j].reg] == p.regs[cfg[j].reg];
    }
  }

  /**
   * Convergence: with one entry per register and every entry correctable,
   * the pass after a failed pass succeeds (no external change in between).
   */
  lemma {:induction false} ConfigureConverges(regs: RegisterFile, cfg: seq<RegisterConfig>)
    requires DistinctRegisters(cfg)
    requires forall j :: 0 <= j < |cfg| ==> Correctable(cfg[j])
    ensures ConfigurePass(ConfigurePass(regs, cfg).regs, cfg).ok
  {
    var r := ConfigurePass(regs, cfg).regs;
    forall j | 0 <= j < |cfg| ensures CheckPasses(r[cfg[j].reg], cfg[j]) {
      ConfigureCorrectsEach(regs, cfg, |cfg|, j);
      FixPasses(regs[cfg[j].reg], cfg[j]);
    }
    ConfigureOkIff(r, cfg, |cfg|);
  }

  /**
   * Convergence needs consistent entries: a table in which two entries on
   * the same register demand bit 0 set and bit 0 clear never configures.
   */
  lemma {:induction false} ConflictingTableNeverConfigures(regs: RegisterFile, r: Reg)
    ensures !ConfigurePass(regs, [RegisterConfig(r, 0x01, 0), RegisterConfig(r, 0, 0x01)]).ok
  {
    var cfg := [RegisterConfig(r, 0x01, 0), RegisterConfig(r, 0, 0x01)];
    ConfigureOkIff(regs, cfg, 2);
    assert !(CheckPasses(regs[r], cfg[0]) && CheckPasses(regs[r], cfg[1]));
  }

  /** The round-robin health-check cursor after a passing check: the next entry, wrapping at the end. */
  function NextCursor(c: nat, n: nat): (r: nat)
    requires c < n
    ensures r < n
    ensures r == if c + 1 == n then 0 else c + 1
  {
    (c + 1) % n
  }

  /** The entries checked by k consecutive passing health checks starting at cursor c. */
  function CursorTrace(c: nat, n: nat, k: nat): seq<nat>
    requires c < n
    decreases k
  {
    if k == 0 then [] else [c] + CursorTrace(NextCursor(c, n), n, k - 1)
  }

  /** Within one round, the i-th checked entry is c + i, wrapped once. */
  lemma {:induction false} CursorTraceAt(c: nat, n: nat, k: nat, i: nat)
    requires c < n && k <= n && i < k
    decreases i
    ensures |CursorTrace(c, n, k)| == k
    ensures CursorTrace(c, n, k)[i] == if c + i < n then c + i else c + i - n
  {
    if i == 0 {
      CursorTraceLength(c, n, k);
    } else {
      CursorTraceAt(NextCursor(c, n), n, k - 1, i - 1);
    }
  }

  /** A trace of k checks has k entries. */
  lemma {:induction false} CursorTraceLength(c: nat, n: nat, k: nat)
    requires c < n
    decreases k
    ensures |CursorTrace(c, n, k)| == k
  {
    if k > 0 {
      CursorTraceLength(NextCursor(c, n), n, k - 1);
    }
  }

  /**
   * Round robin: from any cursor, n consecutive passing checks visit every
   * entry of an n-entry table exactly once, each one the successor of the last.
   */
  lemma {:induction false} RoundRobinVisitsEachOnce(c: nat, n: nat)
    requires c < n
    ensures |CursorTrace(c, n, n)| == n
    ensures forall j :: 0 <= j < n ==> j in CursorTrace(c, n, n)
    ensures forall i, i' :: 0 <= i < i' < n ==> CursorTrace(c, n, n)[i] != CursorTrace(c, n, n)[i']
    ensures forall i :: 0 <= i < n ==> CursorTrace(c, n, n)[i] < n
    ensures forall i :: 0 <= i < n - 1 ==>
              CursorTrace(c, n, n)[i + 1] == NextCursor(CursorTrace(c, n, n)[i], n)
  {
    var t := CursorTrace(c, n, n);
    CursorTraceLength(c, n, n);
    forall i | 0 <= i < n ensures t[i] == if c + i < n then c + i else c + i - n {
      CursorTraceAt(c, n, n, i);
    }
    forall j | 0 <= j < n ensures j in t {
      var i := if j >= c then j - c else j + n - c;
      assert t[i] == j;
    }
  }
}
