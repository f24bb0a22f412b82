// Names of the disks inside a guest: /dev/sda, /dev/sdb, ... /dev/sdz, /dev/sdaa, ...
module DiskNames {
  import opened Common
  import opened Strings
  import opened DomainConfig
  import opened Paths

  // ---------- Bijective base 26 ----------

  function Letter(k: nat): char
    requires k < 26
  {
    'a' + k as char
  }

  predicate IsLetter(c: char) { 'a' <= c <= 'z' }

  predicate IsName(s: string) {
    s != "" && forall i :: 0 <= i < |s| ==> IsLetter(s[i])
  }

  function Letters(n: nat): (s: string)
    ensures IsName(s)
  {
    (if n < 26 then "" else Letters(n / 26 - 1)) + [Letter(n % 26)]
  }

  /** The number a name stands for. */
  function Decode(s: string): nat
    requires IsName(s)
  {
    var low := s[|s| - 1] as nat - 'a' as nat;
    if |s| == 1 then low else (Decode(s[..|s| - 1]) + 1) * 26 + low
  }

  /** Every number has a name that stands for it. */
  lemma {:induction false} DecodeLetters(n: nat)
    ensures Decode(Letters(n)) == n
  {
    var s := Letters(n);
    if n >= 26 {
      DecodeLetters(n / 26 - 1);
      assert s[..|s| - 1] == Letters(n / 26 - 1);
    }
  }

  /** Every name is the name of its number: the numeral system leaves no name out. */
  lemma {:induction false} LettersDecode(s: string)
    requires IsName(s)
    ensures Letters(Decode(s)) == s
  {
    var last := s[|s| - 1];
    var low := last as nat - 'a' as nat;
    assert IsLetter(last) && Letter(low) == last;
    if |s| > 1 {
      var rest := s[..|s| - 1];
      LettersDecode(rest);
      assert Decode(s) == (Decode(rest) + 1) * 26 + low;
      LettersOf(Decode(rest), low);
      hide *;
      assert s == rest + [last];
    } else {
      assert s == [Letter(low)];
    }
  }

  lemma LettersOf(high: nat, low: nat)
    requires low < 26
    ensures Letters((high + 1) * 26 + low) == Letters(high) + [Letter(low)]
  {
    Digits(high, low);
    hide Letter;
  }

  lemma Digits(high: nat, low: nat)
    requires low < 26
    ensures ((high + 1) * 26 + low) / 26 == high + 1 && ((high + 1) * 26 + low) % 26 == low
  {
  }

  function GuestName(n: nat): string { "/dev/sd" + Letters(n) }

  lemma GuestNameInjective(m: nat, n: nat)
    requires GuestName(m) == GuestName(n)
    ensures m == n
  {
    assert Letters(m) == GuestName(m)[7..] == GuestName(n)[7..] == Letters(n);
    DecodeLetters(m);
    DecodeLetters(n);
  }

  lemma LettersStep(n: nat, high: int, more: string)
    requires high == n / 26 - 1
    ensures Letters(n) + more == (if high < 0 then "" else Letters(high)) + ([Letter(n % 26)] + more)
    ensures high < n
  {
    var front := if high < 0 then "" else Letters(high);
    assert Letters(n) == front + [Letter(n % 26)];
    hide *;
    assert (front + [Letter(n % 26)]) + more == front + ([Letter(n % 26)] + more);
  }

  /** guestDiskDeviceName */
  method GuestDiskDeviceName(index: int) returns (name: string)
    ensures name == if index < 0 then "" else GuestName(index)
  {
    hide Letters, Letter;
    if index < 0 {
      return "";
    }
    var rest, letters := index, "";
    while true
      invariant rest >= 0 && Letters(index) == Letters(rest) + letters
      decreases rest
    {
      var high := rest / 26 - 1;
      LettersStep(rest, high, letters);
      letters := [Letter(rest % 26)] + letters;
      rest := high;
      if rest < 0 {
        break;
      }
    }
    return "/dev/sd" + letters;
  }

  // ---------- Device names found in the guest ----------

  /** normalizeGuestDevice */
  function Normalize(value: string): string {
    var s := TrimSpace(value);
    if s == "-" then "" else s
  }

  function StripDigits(s: string): (r: string)
    ensures r <= s
    ensures r != "" ==> !IsDigit(r[|r| - 1])
    ensures forall i :: |r| <= i < |s| ==> IsDigit(s[i])
  {
    if s != "" && IsDigit(s[|s| - 1]) then StripDigits(s[..|s| - 1]) else s
  }

  function TrimPrefixX(s: string): string { if s != "" && s[0] == 'x' then s[1..] else s }

  /** directGuestDevice: the disk that a device or partition name stands for. */
  function Direct(name: string): (r: Option<string>)
    ensures r.Some? ==> r.value != ""
  {
    var base := TrimPrefixX(Base(Normalize(name)));
    if Normalize(name) != "" && ("vd" <= base || "sd" <= base || "hd" <= base) && |StripDigits(base)| >= 3
    then Some("/dev/" + StripDigits(base))
    else None
  }

  method DirectGuestDevice(name: string) returns (r: Option<string>)
    ensures r == Direct(name)
  {
    hide TrimSpace, Base;
    var normal := Normalize(name);
    if normal == "" {
      return None;
    }
    var base := TrimPrefixX(Base(normal));
    if HasPrefix(base, "vd") || HasPrefix(base, "sd") || HasPrefix(base, "hd") {
      var device := base;
      while |device| > 0 && '0' <= device[|device| - 1] <= '9'
        invariant StripDigits(device) == StripDigits(base)
        decreases |device|
      {
        device := device[..|device| - 1];
      }
      if |device| >= 3 {
        return Some("/dev/" + device);
      }
    }
    return None;
  }

  lemma {:induction false} StripSuffix(s: string, digits: string)
    requires s != "" && !IsDigit(s[|s| - 1]) && forall i :: 0 <= i < |digits| ==> IsDigit(digits[i])
    ensures StripDigits(s + digits) == s
  {
    if digits == "" {
      assert s + digits == s;
    } else {
      var k := |digits| - 1;
      StripSuffix(s, digits[..k]);
      assert (s + digits)[..|s| + k] == s + digits[..k] && (s + digits)[|s| + k] == digits[k];
    }
  }

  /** A last component that names a disk: perhaps an x, then a vd, sd or hd name that ends in no digit, then perhaps a
      partition number. */
  ghost predicate NamesDevice(component: string, x: string, disk: string, digits: string) {
    && component == x + disk + digits && (x == "" || x == "x")
    && |disk| >= 3 && disk[..2] in {"vd", "sd", "hd"} && !IsDigit(disk[|disk| - 1])
    && forall i :: 0 <= i < |digits| ==> IsDigit(digits[i])
  }

  lemma NamedDirect(name: string, x: string, disk: string, digits: string)
    requires NamesDevice(Base(Normalize(name)), x, disk, digits)
    ensures Direct(name) == Some("/dev/" + disk)
  {
    hide Base, Normalize, IsDigit;
    var component := Base(Normalize(name));
    assert component[0] == (x + disk)[0];
    assert component == x + (disk + digits);
    assert (disk + digits)[..2] == disk[..2];
    assert disk[..2][0] == disk[0];
    assert TrimPrefixX(component) == disk + digits;
    StripSuffix(disk, digits);
    hide StripDigits;
    EmptyBase();
  }

  lemma EmptyBase()
    ensures Base("") == "."
  {
  }

  lemma DirectNamed(name: string) returns (x: string, disk: string, digits: string)
    requires Direct(name).Some?
    ensures NamesDevice(Base(Normalize(name)), x, disk, digits) && Direct(name) == Some("/dev/" + disk)
  {
    hide Base, Normalize, StripDigits;
    var component := Base(Normalize(name));
    var rest := TrimPrefixX(component);
    x := component[..|component| - |rest|];
    disk := StripDigits(rest);
    digits := rest[|disk|..];
    assert x == "" || (x == component[..1] && component[0] == 'x' && x == "x");
    assert ("vd" <= rest ==> rest[..2] == "vd") && ("sd" <= rest ==> rest[..2] == "sd")
        && ("hd" <= rest ==> rest[..2] == "hd");
    assert disk[..2] == rest[..2];
    assert component == x + disk + digits;
  }

  /** The disk is found exactly if the last component of the name names one. */
  lemma DirectMeans(name: string, r: string)
    ensures Direct(name) == Some(r) <==>
              exists x, disk, digits :: NamesDevice(Base(Normalize(name)), x, disk, digits) && r == "/dev/" + disk
  {
    hide Direct, NamesDevice, Base, Normalize;
    if Direct(name) == Some(r) {
      var x, disk, digits := DirectNamed(name);
    }
    forall x, disk, digits | NamesDevice(Base(Normalize(name)), x, disk, digits) && r == "/dev/" + disk
      ensures Direct(name) == Some(r)
    {
      NamedDirect(name, x, disk, digits);
    }
  }

  /** A disk's name, with or without a partition number, leads back to the disk. */
  lemma DirectOfDisk(n: nat, digits: string)
    requires forall i :: 0 <= i < |digits| ==> IsDigit(digits[i])
    ensures Direct(GuestName(n) + digits) == Some(GuestName(n))
  {
    PlainDevice(Letters(n), digits);
  }

  lemma PlainDevice(letters: string, digits: string)
    requires IsName(letters) && forall i :: 0 <= i < |digits| ==> IsDigit(digits[i])
    ensures Direct("/dev/sd" + letters + digits) == Some("/dev/sd" + letters)
  {
    var disk := "sd" + letters;
    var name := "/dev/sd" + letters + digits;
    DiskBase(letters, digits);
    EndsInLetter(letters);
    StripSuffix(disk, digits);
    hide Base, StripDigits, IsName, IsDigit, Normalize;
    DirectFrom(name, disk, digits);
    assert "/dev/" + disk == "/dev/sd" + letters;
  }

  lemma DirectFrom(name: string, disk: string, digits: string)
    requires Normalize(name) == name && name != "" && Base(name) == disk + digits && StripDigits(disk + digits) == disk
    requires |disk| >= 3 && "sd" <= disk
    ensures Direct(name) == Some("/dev/" + disk)
  {
    hide Base, StripDigits, Normalize;
    assert (disk + digits)[0] == 's' && "sd" <= disk + digits;
  }

  lemma DiskBase(letters: string, digits: string)
    requires IsName(letters) && forall i :: 0 <= i < |digits| ==> IsDigit(digits[i])
    ensures var name := "/dev/sd" + letters + digits; Normalize(name) == name && Base(name) == "sd" + letters + digits
  {
    var last := "sd" + letters + digits;
    var name := "/dev/sd" + letters + digits;
    DiskPathPlain(letters, digits);
    BaseOf("/dev", last);
    assert name == "/dev" + "/" + last && name == "/dev/" + last;
    hide TrimSpace, Base, LastComponent;
    assert name[0] == '/';
  }

  lemma EndsInLetter(letters: string)
    requires IsName(letters)
    ensures var disk := "sd" + letters; |disk| >= 3 && !IsDigit(disk[|disk| - 1])
  {
    assert IsLetter(letters[|letters| - 1]);
  }

  lemma DiskPathPlain(letters: string, digits: string)
    requires IsName(letters) && forall i :: 0 <= i < |digits| ==> IsDigit(digits[i])
    ensures '/' !in "sd" + letters + digits && IsTrimmed("/dev/" + ("sd" + letters + digits))
  {
    var last := "sd" + letters + digits;
    forall i | 0 <= i < |last| ensures last[i] != '/' && !IsSpace(last[i]) {
      if i >= 2 + |letters| {
        assert last[i] == digits[i - 2 - |letters|];
      } else if i >= 2 {
        assert last[i] == letters[i - 2];
      }
    }
    var name := "/dev/" + last;
    assert name[|name| - 1] == last[|last| - 1];
  }

  // ---------- The targets of the guest's disks ----------

  /** The disks that have a place in the guest: device='disk' with a target. */
  function Placed(disks: seq<DiskEntry>): seq<DiskEntry> {
    if disks == [] then []
    else
      var d := disks[|disks| - 1];
      Placed(disks[..|disks| - 1]) + if d.device == "disk" && !Blank(d.name) then [d] else []
  }

  /** The k-th of these disks is the k-th disk of the guest, and there is no other. */
  ghost predicate NamesDisks(targets: map<string, string>, placed: seq<DiskEntry>) {
    && |targets| == |placed|
    && (forall k :: 0 <= k < |placed| ==> GuestName(k) in targets && targets[GuestName(k)] == placed[k].name)
    && (forall g :: g in targets ==> exists k :: 0 <= k < |placed| && g == GuestName(k))
  }

  lemma AddName(targets: map<string, string>, placed: seq<DiskEntry>, d: DiskEntry)
    requires NamesDisks(targets, placed)
    ensures NamesDisks(targets[GuestName(|placed|) := d.name], placed + [d])
  {
    hide GuestName;
    var n := |placed|;
    forall k | 0 <= k < n ensures GuestName(k) != GuestName(n) {
      if GuestName(k) == GuestName(n) {
        GuestNameInjective(k, n);
      }
    }
    assert GuestName(n) !in targets;
    var more := placed + [d];
    assert more[n] == d;
    assert forall k :: 0 <= k < n ==> more[k] == placed[k];
    assert |targets[GuestName(n) := d.name]| == |more|;
  }

  /** diskTargetsByGuestDevice: no disk's entry is overwritten by another's. */
  method DiskTargets(disks: seq<DiskEntry>) returns (targets: map<string, string>)
    ensures NamesDisks(targets, Placed(disks))
  {
    hide NamesDisks, GuestName, TrimSpace, Placed;
    targets := map[];
    var index := 0;
    NoNames();
    assert disks[..0] == [];
    for i := 0 to |disks|
      invariant index == |Placed(disks[..i])| && NamesDisks(targets, Placed(disks[..i]))
    {
      PlacedStep(disks, i);
      if disks[i].device != "disk" || Blank(disks[i].name) {
        continue;
      }
      var device := GuestDiskDeviceName(index);
      AddName(targets, Placed(disks[..i]), disks[i]);
      NamedDevice(index);
      if device != "" {
        targets := targets[device := disks[i].name];
      }
      index := index + 1;
    }
    assert disks[..|disks|] == disks;
  }

  lemma PlacedStep(disks: seq<DiskEntry>, i: nat)
    requires i < |disks|
    ensures Placed(disks[..i + 1]) == if disks[i].device == "disk" && !Blank(disks[i].name)
              then Placed(disks[..i]) + [disks[i]] else Placed(disks[..i])
  {
    hide Blank;
    assert disks[..i + 1][..i] == disks[..i];
  }

  lemma NoNames()
    ensures Placed([]) == [] && NamesDisks(map[], [])
  {
  }

  lemma NamedDevice(n: nat)
    ensures GuestName(n) != ""
  {
  }
}
