/** The GPU driver bug workaround list (gpu_driver_bug_list.cc): the table of
    workaround names, indexed by workaround type, and the command-line
    switches that add workarounds to, or remove them from, the set chosen for
    the current GPU. */
module GpuDriverBugList {
  import opened Common

  /** kFeatureList: the workaround of type i is named `names[i]`; two of the
      types, forcing the discrete or the integrated GPU, conflict. */
  datatype FeatureTable = FeatureTable(names: seq<string>, forceDiscreteGpu: nat, forceIntegratedGpu: nat)

  predicate ValidTable(t: FeatureTable)
  {
    t.forceDiscreteGpu < |t.names| && t.forceIntegratedGpu < |t.names|
    && t.forceDiscreteGpu != t.forceIntegratedGpu
  }

  /** A base::CommandLine: its switches and their values. */
  datatype CommandLine = CommandLine(switches: map<string, string>)

  /** switches::kGpuDriverBugWorkarounds. */
  const GpuDriverBugWorkaroundsSwitch: string := "gpu-driver-bug-workarounds"

  /** GpuDriverBugWorkaroundTypeToString: the table name of a known type,
      "unknown" for any type beyond the table. */
  function TypeToString(t: FeatureTable, workaround: nat): (r: string)
    ensures workaround < |t.names| ==> r == t.names[workaround]
    ensures workaround >= |t.names| ==> r == "unknown"
  {
    if workaround < |t.names| then t.names[workaround] else "unknown"
  }

  /** When no table name is "unknown" and names are distinct, the name tells
      types apart and singles out the unknown ones. */
  lemma TypeToStringInjective(t: FeatureTable, a: nat, b: nat)
    requires forall i :: 0 <= i < |t.names| ==> t.names[i] != "unknown"
    requires forall i, j :: 0 <= i < j < |t.names| ==> t.names[i] != t.names[j]
    requires a < |t.names| || b < |t.names|
    ensures TypeToString(t, a) == TypeToString(t, b) <==> a == b
  {
    if a < b && b < |t.names| {
      assert t.names[a] != t.names[b];
    } else if b < a && a < |t.names| {
      assert t.names[b] != t.names[a];
    }
  }

  /** The set after the combined switch: its parsed value (StringToFeatureSet,
      given as `parse`) is added when the switch is present. */
  function WithCombinedSwitch(workarounds: set<int>, cmd: CommandLine, parse: string -> set<int>): (r: set<int>)
    ensures GpuDriverBugWorkaroundsSwitch !in cmd.switches ==> r == workarounds
    ensures GpuDriverBugWorkaroundsSwitch in cmd.switches ==>
              r == workarounds + parse(cmd.switches[GpuDriverBugWorkaroundsSwitch])
  {
    if GpuDriverBugWorkaroundsSwitch in cmd.switches
    then workarounds + parse(cmd.switches[GpuDriverBugWorkaroundsSwitch])
    else workarounds
  }

  /** A per-workaround switch is present and not "0". */
  predicate Enabled(t: FeatureTable, cmd: CommandLine, i: nat)
    requires i < |t.names|
  {
    t.names[i] in cmd.switches && cmd.switches[t.names[i]] != "0"
  }

  /** One turn of the loop over the table, for the workaround of type i. */
  function SwitchStep(w: set<int>, t: FeatureTable, cmd: CommandLine, i: nat): set<int>
    requires ValidTable(t) && i < |t.names|
  {
    if t.names[i] !in cmd.switches then w
    else if cmd.switches[t.names[i]] == "0" then w - {i}
    else if i == t.forceDiscreteGpu then (w - {t.forceIntegratedGpu}) + {t.forceDiscreteGpu}
    else if i == t.forceIntegratedGpu then (w - {t.forceDiscreteGpu}) + {t.forceIntegratedGpu}
    else w + {i}
  }

  /** The set after the first n turns of the loop. */
  function AfterSwitches(w: set<int>, t: FeatureTable, cmd: CommandLine, n: nat): set<int>
    requires ValidTable(t) && n <= |t.names|
  {
    if n == 0 then w else SwitchStep(AfterSwitches(w, t, cmd, n - 1), t, cmd, n - 1)
  }

  /** AppendWorkaroundsFromCommandLine: the combined switch first, then each
      per-workaround switch in table order. */
  method AppendWorkaroundsFromCommandLine(workarounds: set<int>, t: FeatureTable, cmd: CommandLine,
                                          parse: string -> set<int>)
    returns (result: set<int>)
    requires ValidTable(t)
    ensures result == AfterSwitches(WithCombinedSwitch(workarounds, cmd, parse), t, cmd, |t.names|)
  {
    result := workarounds;
    if GpuDriverBugWorkaroundsSwitch in cmd.switches {
      var cmdWorkarounds := parse(cmd.switches[GpuDriverBugWorkaroundsSwitch]);
      result := result + cmdWorkarounds;
    }
    ghost var start := result;
    for i := 0 to |t.names|
      invariant result == AfterSwitches(start, t, cmd, i)
    {
      var name := t.names[i];
      if name in cmd.switches {
        if cmd.switches[name] == "0" {
          result := result - {i};
          continue;
        }
        if i == t.forceDiscreteGpu {
          result := result - {t.forceIntegratedGpu};
          result := result + {t.forceDiscreteGpu};
        } else if i == t.forceIntegratedGpu {
          result := result - {t.forceDiscreteGpu};
          result := result + {t.forceIntegratedGpu};
        } else {
          result := result + {i};
        }
      }
    }
  }

  /** Without any per-workaround switch the loop leaves the set alone. */
  lemma {:induction false} NoSwitchesNoChange(w: set<int>, t: FeatureTable, cmd: CommandLine, n: nat)
    requires ValidTable(t) && n <= |t.names|
    requires forall i :: 0 <= i < |t.names| ==> t.names[i] !in cmd.switches
    ensures AfterSwitches(w, t, cmd, n) == w
  {
    if n > 0 {
      NoSwitchesNoChange(w, t, cmd, n - 1);
    }
  }

  /** With no switch at all the whole operation is the identity; with only
      the combined switch it is a union. */
  lemma CombinedSwitchOnly(w: set<int>, t: FeatureTable, cmd: CommandLine, parse: string -> set<int>)
    requires ValidTable(t)
    requires forall i :: 0 <= i < |t.names| ==> t.names[i] !in cmd.switches
    ensures GpuDriverBugWorkaroundsSwitch !in cmd.switches ==>
              AfterSwitches(WithCombinedSwitch(w, cmd, parse), t, cmd, |t.names|) == w
    ensures GpuDriverBugWorkaroundsSwitch in cmd.switches ==>
              AfterSwitches(WithCombinedSwitch(w, cmd, parse), t, cmd, |t.names|)
              == w + parse(cmd.switches[GpuDriverBugWorkaroundsSwitch])
  {
    NoSwitchesNoChange(WithCombinedSwitch(w, cmd, parse), t, cmd, |t.names|);
  }

  /** A turn for type i never adds any type other than i. */
  lemma StepAddsOnlyItsType(w: set<int>, t: FeatureTable, cmd: CommandLine, i: nat, x: int)
    requires ValidTable(t) && i < |t.names|
    requires x != i && x !in w
    ensures x !in SwitchStep(w, t, cmd, i)
  {
  }

  /** A workaround switched off with "0" is absent afterwards, whatever the
      other switches say. */
  lemma {:induction false} DisabledIsAbsent(w: set<int>, t: FeatureTable, cmd: CommandLine, n: nat, k: nat)
    requires ValidTable(t) && k < n <= |t.names|
    requires t.names[k] in cmd.switches && cmd.switches[t.names[k]] == "0"
    ensures k !in AfterSwitches(w, t, cmd, n)
  {
    if n - 1 != k {
      DisabledIsAbsent(w, t, cmd, n - 1, k);
      StepAddsOnlyItsType(AfterSwitches(w, t, cmd, n - 1), t, cmd, n - 1, k);
    }
  }

  /** An enabled workaround other than the two GPU-forcing ones is present
      afterwards. */
  lemma {:induction false} EnabledIsPresent(w: set<int>, t: FeatureTable, cmd: CommandLine, n: nat, k: nat)
    requires ValidTable(t) && k < n <= |t.names|
    requires Enabled(t, cmd, k) && k != t.forceDiscreteGpu && k != t.forceIntegratedGpu
    ensures k in AfterSwitches(w, t, cmd, n)
  {
    if n - 1 != k {
      EnabledIsPresent(w, t, cmd, n - 1, k);
    }
  }

  /** A type with no switch of its own keeps its membership, unless it is
      one of the two GPU-forcing types. */
  lemma {:induction false} UnswitchedKeepsMembership(w: set<int>, t: FeatureTable, cmd: CommandLine, n: nat, x: int)
    requires ValidTable(t) && n <= |t.names|
    requires x != t.forceDiscreteGpu && x != t.forceIntegratedGpu
    requires 0 <= x < |t.names| ==> t.names[x] !in cmd.switches
    ensures x in AfterSwitches(w, t, cmd, n) <==> x in w
  {
    if n > 0 {
      UnswitchedKeepsMembership(w, t, cmd, n - 1, x);
    }
  }

  /** Forcing the discrete GPU (without also forcing the integrated one)
      leaves exactly the discrete choice in the set. */
  lemma {:induction false} ForceDiscreteExcludesIntegrated(w: set<int>, t: FeatureTable, cmd: CommandLine, n: nat)
    requires ValidTable(t) && t.forceDiscreteGpu < n <= |t.names|
    requires Enabled(t, cmd, t.forceDiscreteGpu) && !Enabled(t, cmd, t.forceIntegratedGpu)
    ensures t.forceDiscreteGpu in AfterSwitches(w, t, cmd, n)
    ensures t.forceIntegratedGpu !in AfterSwitches(w, t, cmd, n)
  {
    if n - 1 != t.forceDiscreteGpu {
      ForceDiscreteExcludesIntegrated(w, t, cmd, n - 1);
    }
  }

  /** And symmetrically for the integrated GPU. */
  lemma {:induction false} ForceIntegratedExcludesDiscrete(w: set<int>, t: FeatureTable, cmd: CommandLine, n: nat)
    requires ValidTable(t) && t.forceIntegratedGpu < n <= |t.names|
    requires Enabled(t, cmd, t.forceIntegratedGpu) && !Enabled(t, cmd, t.forceDiscreteGpu)
    ensures t.forceIntegratedGpu in AfterSwitches(w, t, cmd, n)
    ensures t.forceDiscreteGpu !in AfterSwitches(w, t, cmd, n)
  {
    if n - 1 != t.forceIntegratedGpu {
      ForceIntegratedExcludesDiscrete(w, t, cmd, n - 1);
    }
  }

  /** AppendAllWorkarounds as written: `resize` grows the vector by one null
      entry per workaround before the names are pushed after them. */
  function AppendAllWorkaroundsAsWritten(v: seq<Option<string>>, t: FeatureTable): (r: seq<Option<string>>)
    ensures |r| == |v| + 2 * |t.names|
    ensures r[..|v|] == v
    ensures forall i :: |v| <= i < |v| + |t.names| ==> r[i] == None
    ensures forall i :: 0 <= i < |t.names| ==> r[|v| + |t.names| + i] == Some(t.names[i])
  {
    v + seq(|t.names|, _ => None) + seq(|t.names|, i requires 0 <= i < |t.names| => Some(t.names[i]))
  }

  /** AppendAllWorkarounds as evidently intended (`reserve`): the names,
      each once, after the existing entries. */
  function AppendAllWorkarounds(v: seq<Option<string>>, t: FeatureTable): (r: seq<Option<string>>)
    ensures |r| == |v| + |t.names|
    ensures r[..|v|] == v
    ensures forall i :: 0 <= i < |t.names| ==> r[|v| + i] == Some(t.names[i])
  {
    v + seq(|t.names|, i requires 0 <= i < |t.names| => Some(t.names[i]))
  }

  /** With any workaround in the table, the written version hands back a
      null name where the intended one hands back the first name. */
  lemma AppendAllWorkaroundsAddsNulls(v: seq<Option<string>>, t: FeatureTable)
    requires |t.names| > 0
    ensures AppendAllWorkaroundsAsWritten(v, t)[|v|] == None
    ensures AppendAllWorkarounds(v, t)[|v|] == Some(t.names[0])
    ensures AppendAllWorkaroundsAsWritten(v, t) != AppendAllWorkarounds(v, t)
  {
  }
}
