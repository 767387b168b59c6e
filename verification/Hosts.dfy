/** Counting distinct hosts in a web server's log: with a set lookup, and with a linear search. */
module Hosts {
  /** The part of a line before its first space, or the whole line. */
  function FirstField(line: string): string {
    if line == "" || line[0] == ' ' then "" else [line[0]] + FirstField(line[1..])
  }

  /** line.substr(0, line.find_first_of(" ")): find_first_of gives -1 when there is no space,
      which substr takes as "to the end". */
  method Hostname(line: string) returns (host: string)
    ensures host == FirstField(line)
    ensures host <= line && ' ' !in host && (|host| < |line| ==> line[|host|] == ' ')
  {
    var pos := 0;
    while pos < |line| && line[pos] != ' '
      invariant 0 <= pos <= |line|
      invariant FirstField(line) == line[..pos] + FirstField(line[pos..])
      invariant ' ' !in line[..pos]
    {
      assert line[pos..][1..] == line[pos + 1..];
      assert line[..pos] + [line[pos]] == line[..pos + 1];
      pos := pos + 1;
    }
    host := line[..pos];
  }

  /** The hosts of a log. */
  function HostsOf(lines: seq<string>): set<string> { set l | l in lines :: FirstField(l) }

  lemma HostIff(lines: seq<string>, host: string)
    ensures host in HostsOf(lines) <==> exists i :: 0 <= i < |lines| && FirstField(lines[i]) == host
  {
    if host in HostsOf(lines) {
      var l :| l in lines && FirstField(l) == host;
      var i :| 0 <= i < |lines| && lines[i] == l;
      assert FirstField(lines[i]) == host;
    }
  }

  class HostCounter {
    var myHosts: set<string>

    constructor ()
      ensures myHosts == {}
    {
      myHosts := {};
    }

    method IsNewHost(host: string) returns (isNew: bool)
      ensures isNew <==> host !in myHosts
    {
      isNew := host !in myHosts;
    }

    method NotifyHost(host: string)
      modifies this
      ensures myHosts == old(myHosts) + {host}
    {
      var isNew := IsNewHost(host);
      if isNew {
        myHosts := myHosts + {host};
      }
    }
  }

  /** The counter of the solution: it declares a std::set but searches it with std::find,
      which compares the hosts one by one. The sequence stands for the set's iteration; the
      order in which the set keeps its hosts is not modelled. */
  class LinearHostCounter {
    var myHosts: seq<string>

    ghost predicate Valid()
      reads this
    {
      forall i, j :: 0 <= i < j < |myHosts| ==> myHosts[i] != myHosts[j]
    }

    constructor ()
      ensures Valid() && myHosts == []
    {
      myHosts := [];
    }

    method IsNewHost(host: string) returns (isNew: bool)
      ensures isNew <==> host !in myHosts
    {
      var i := 0;
      while i < |myHosts| && myHosts[i] != host
        invariant 0 <= i <= |myHosts| && host !in myHosts[..i]
      {
        i := i + 1;
      }
      isNew := i == |myHosts|;
    }

    method NotifyHost(host: string)
      requires Valid()
      modifies this
      ensures Valid()
      ensures (set h | h in myHosts) == (set h | h in old(myHosts)) + {host}
    {
      var isNew := IsNewHost(host);
      if isNew {
        myHosts := myHosts + [host];
      }
    }
  }

  lemma {:induction false} DistinctLength(s: seq<string>)
    requires forall i, j :: 0 <= i < j < |s| ==> s[i] != s[j]
    ensures |set h | h in s| == |s|
  {
    if s != [] {
      DistinctLength(s[1..]);
      assert (set h | h in s) == {s[0]} + (set h | h in s[1..]);
      assert s[0] !in s[1..];
    }
  }

  lemma HostsOfOneMore(lines: seq<string>, i: nat)
    requires i < |lines|
    ensures HostsOf(lines[..i + 1]) == HostsOf(lines[..i]) + {FirstField(lines[i])}
  {
    assert lines[..i + 1] == lines[..i] + [lines[i]];
  }

  method ProcessFile(lines: seq<string>) returns (n: nat)
    ensures n == |HostsOf(lines)|
  {
    var counter := new HostCounter();
    for i := 0 to |lines|
      invariant counter.myHosts == HostsOf(lines[..i])
      invariant fresh(counter)
    {
      var host := Hostname(lines[i]);
      HostsOfOneMore(lines, i);
      counter.NotifyHost(host);
    }
    assert lines[..|lines|] == lines;
    n := |counter.myHosts|;
  }

  /** The same loop over the counter with the linear search counts the same. */
  method ProcessFileLinear(lines: seq<string>) returns (n: nat)
    ensures n == |HostsOf(lines)|
  {
    var counter := new LinearHostCounter();
    for i := 0 to |lines|
      invariant (set h | h in counter.myHosts) == HostsOf(lines[..i])
      invariant counter.Valid() && fresh(counter)
    {
      var host := Hostname(lines[i]);
      HostsOfOneMore(lines, i);
      counter.NotifyHost(host);
    }
    assert lines[..|lines|] == lines;
    DistinctLength(counter.myHosts);
    n := |counter.myHosts|;
  }

  /** Neither the order of the lines nor their repetition matters: logs with the same lines
      have the same hosts, and so the same count. */
  lemma OnlyTheLinesMatter(a: seq<string>, b: seq<string>)
    requires forall l :: l in a <==> l in b
    ensures HostsOf(a) == HostsOf(b)
  {
    forall h ensures h in HostsOf(a) <==> h in HostsOf(b) {
      if h in HostsOf(a) {
        var l :| l in a && FirstField(l) == h;
      }
      if h in HostsOf(b) {
        var l :| l in b && FirstField(l) == h;
      }
    }
  }
}
