/**
 * The scan of the ARP table in suspend: each line is split on whitespace
 * (Python 2 str.split() with no argument), and a line whose first field is
 * the Node's address gives the MAC as its fourth field. Indexing a field
 * that is not there raises IndexError.
 */
module Arp {
  import opened Outcomes

  /** The characters str.split() separates on: space, \t, \n, \r, \x0b, \x0c. */
  predicate IsSpace(c: char)
  {
    c == ' ' || c == '\t' || c == '\n' || c == '\r' || c == '\U{000B}' || c == '\U{000C}'
  }

  /** The length of the run of non-space characters at the start of `s`. */
  function WordLen(s: string): (n: nat)
    ensures n <= |s|
    ensures forall k :: 0 <= k < n ==> !IsSpace(s[k])
    ensures n < |s| ==> IsSpace(s[n])
  {
    if s == [] || IsSpace(s[0]) then 0 else 1 + WordLen(s[1..])
  }

  /** line.split(): the maximal runs of non-space characters, in order. */
  function Fields(line: string): (r: seq<string>)
    ensures forall k :: 0 <= k < |r| ==> r[k] != []
    ensures forall k, j :: 0 <= k < |r| && 0 <= j < |r[k]| ==> !IsSpace(r[k][j])
    decreases |line|
  {
    if line == [] then []
    else if IsSpace(line[0]) then Fields(line[1..])
    else
      var n := WordLen(line);
      [line[..n]] + Fields(line[n..])
  }

  /** The characters of `s` that are not whitespace. */
  function NonSpace(s: string): string
  {
    if s == [] then [] else (if IsSpace(s[0]) then [] else [s[0]]) + NonSpace(s[1..])
  }

  /** The fields joined back together. */
  function Concat(fields: seq<string>): string
  {
    if fields == [] then [] else fields[0] + Concat(fields[1..])
  }

  lemma {:induction false} NonSpaceWord(s: string)
    requires forall k :: 0 <= k < |s| ==> !IsSpace(s[k])
    ensures NonSpace(s) == s
  {
    if s != [] {
      NonSpaceWord(s[1..]);
    }
  }

  lemma {:induction false} NonSpaceAppend(a: string, b: string)
    ensures NonSpace(a + b) == NonSpace(a) + NonSpace(b)
  {
    if a != [] {
      assert (a + b)[1..] == a[1..] + b;
      NonSpaceAppend(a[1..], b);
    } else {
      assert a + b == b;
    }
  }

  /** Splitting loses only whitespace: the fields joined are the line without its whitespace. */
  lemma {:induction false} FieldsKeepText(line: string)
    ensures Concat(Fields(line)) == NonSpace(line)
    decreases |line|
  {
    if line != [] {
      if IsSpace(line[0]) {
        FieldsKeepText(line[1..]);
      } else {
        var n := WordLen(line);
        FieldsKeepText(line[n..]);
        assert line == line[..n] + line[n..];
        NonSpaceAppend(line[..n], line[n..]);
        NonSpaceWord(line[..n]);
        assert Fields(line)[1..] == Fields(line[n..]);
      }
    }
  }

  /**
   * Whitespace separates fields: splitting a + " " + b gives the fields of
   * `a` followed by the fields of `b`.
   */
  lemma {:induction false} FieldsAtSpace(a: string, sp: char, b: string)
    requires IsSpace(sp)
    ensures Fields(a + [sp] + b) == Fields(a) + Fields(b)
    decreases |a|
  {
    var s := a + [sp] + b;
    if a == [] {
      assert s[1..] == b;
    } else if IsSpace(a[0]) {
      assert s[1..] == a[1..] + [sp] + b;
      FieldsAtSpace(a[1..], sp, b);
    } else {
      var n := WordLen(a);
      WordLenPrefix(a, [sp] + b);
      assert s == a + ([sp] + b);
      assert s[..n] == a[..n];
      assert s[n..] == a[n..] + [sp] + b;
      FieldsAtSpace(a[n..], sp, b);
    }
  }

  lemma {:induction false} WordLenPrefix(a: string, rest: string)
    requires rest != [] && IsSpace(rest[0])
    ensures WordLen(a + rest) == WordLen(a)
  {
    if a != [] && !IsSpace(a[0]) {
      assert (a + rest)[1..] == a[1..] + rest;
      WordLenPrefix(a[1..], rest);
    } else if a == [] {
      assert a + rest == rest;
    }
  }

  /** Reading the line raises no IndexError: it has a first field, and a fourth when the first is `address`. */
  predicate LineOk(line: string, address: string)
  {
    var f := Fields(line);
    |f| > 0 && (f[0] == address ==> |f| > 3)
  }

  /** The line names `address` in its first field. */
  predicate Matches(line: string, address: string)
  {
    var f := Fields(line);
    |f| > 0 && f[0] == address
  }

  /** The scan of the ARP lines: the MAC it ends with, or the IndexError it raises. */
  datatype Scan = Scanned(mac: Option<string>) | IndexError

  /**
   * The loop of suspend over `lines`, starting from the MAC `mac` the Node
   * already has.
   */
  function ArpScan(lines: seq<string>, address: string, mac: Option<string>): Scan
    decreases |lines|
  {
    if lines == [] then Scanned(mac)
    else
      var f := Fields(lines[0]);
      if |f| == 0 then IndexError
      else if f[0] == address then
        if |f| < 4 then IndexError else ArpScan(lines[1..], address, Some(f[3]))
      else ArpScan(lines[1..], address, mac)
  }

  /** The scan raises IndexError exactly when some line has no first field, or matches with fewer than four. */
  lemma {:induction false} ArpScanFails(lines: seq<string>, address: string, mac: Option<string>)
    ensures ArpScan(lines, address, mac) == IndexError <==> exists k :: 0 <= k < |lines| && !LineOk(lines[k], address)
    decreases |lines|
  {
    if lines != [] {
      ArpScanFails(lines[1..], address, if Matches(lines[0], address) && LineOk(lines[0], address) then Some(Fields(lines[0])[3]) else mac);
      if !LineOk(lines[0], address) {
        assert !LineOk(lines[0], address);
      } else {
        forall k | 1 <= k < |lines|
          ensures LineOk(lines[k], address) == LineOk(lines[1..][k - 1], address)
        {
        }
        if exists k :: 0 <= k < |lines[1..]| && !LineOk(lines[1..][k], address) {
          var k :| 0 <= k < |lines[1..]| && !LineOk(lines[1..][k], address);
          assert !LineOk(lines[k + 1], address);
        }
      }
    }
  }

  /** With no matching line (and none that fails), the Node keeps the MAC it had. */
  lemma {:induction false} ArpNoMatch(lines: seq<string>, address: string, mac: Option<string>)
    requires forall k :: 0 <= k < |lines| ==> LineOk(lines[k], address) && !Matches(lines[k], address)
    ensures ArpScan(lines, address, mac) == Scanned(mac)
    decreases |lines|
  {
    if lines != [] {
      ArpNoMatch(lines[1..], address, mac);
    }
  }

  /** The last matching line wins: its fourth field is the MAC the scan ends with. */
  lemma {:induction false} ArpLastMatch(lines: seq<string>, address: string, mac: Option<string>, j: nat)
    requires j < |lines| && Matches(lines[j], address)
    requires forall k :: 0 <= k < |lines| ==> LineOk(lines[k], address)
    requires forall k :: j < k < |lines| ==> !Matches(lines[k], address)
    ensures var f := Fields(lines[j]); |f| > 3 && ArpScan(lines, address, mac) == Scanned(Some(f[3]))
    decreases |lines|
  {
    if j == 0 {
      ArpNoMatch(lines[1..], address, Some(Fields(lines[0])[3]));
    } else {
      var f := Fields(lines[0]);
      ArpLastMatch(lines[1..], address, if f[0] == address then Some(f[3]) else mac, j - 1);
    }
  }
}
