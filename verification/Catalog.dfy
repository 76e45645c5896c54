/** The syscall catalogue (src/syscall_catalog.c).

    The generated rows are a parameter: any table whose numbers are strictly increasing and below
    the limit and whose names are unique. */
module Catalog {
  import opened Bits

  const SYSCALL_LIMIT: nat := 512

  datatype Descriptor = Descriptor(number: int, name: string, classes: nat)

  ghost predicate Valid(catalog: seq<Descriptor>) {
    && (forall i :: 0 <= i < |catalog| ==> 0 <= catalog[i].number < SYSCALL_LIMIT)
    && (forall i, j :: 0 <= i < j < |catalog| ==> catalog[i].number < catalog[j].number)
    && (forall i, j :: 0 <= i < j < |catalog| ==> catalog[i].name != catalog[j].name)
  }

  /** The row of a number, by exhaustive search: what the binary search must agree with. */
  function Find(catalog: seq<Descriptor>, number: int): (r: Option<Descriptor>)
    ensures r.Some? ==> r.value in catalog && r.value.number == number
    ensures r.None? ==> forall d | d in catalog :: d.number != number
  {
    if catalog == [] then None
    else if catalog[0].number == number then Some(catalog[0])
    else Find(catalog[1..], number)
  }

  lemma {:induction false} FindAt(catalog: seq<Descriptor>, k: nat)
    requires Valid(catalog) && k < |catalog|
    ensures Find(catalog, catalog[k].number) == Some(catalog[k])
  {
    if k > 0 {
      assert catalog[1..][k - 1] == catalog[k];
      FindAt(catalog[1..], k - 1);
    }
  }

  /** sg_syscall_by_number. */
  method ByNumber(catalog: seq<Descriptor>, number: int) returns (r: Option<Descriptor>)
    requires Valid(catalog)
    ensures r == Find(catalog, number)
  {
    if number < 0 || number >= SYSCALL_LIMIT {
      return None;
    }
    var left, right := 0, |catalog|;
    while left < right
      invariant 0 <= left <= right <= |catalog|
      invariant forall i :: 0 <= i < left ==> catalog[i].number < number
      invariant forall i :: right <= i < |catalog| ==> number <= catalog[i].number
    {
      var middle := left + (right - left) / 2;
      if catalog[middle].number < number {
        left := middle + 1;
      } else {
        right := middle;
      }
    }
    if left < |catalog| && catalog[left].number == number {
      FindAt(catalog, left);
      return Some(catalog[left]);
    }
    return None;
  }

  /** sg_syscall_by_name. */
  method ByName(catalog: seq<Descriptor>, name: string) returns (r: Option<Descriptor>)
    ensures r.Some? ==> r.value in catalog && r.value.name == name
    ensures r.None? ==> forall d | d in catalog :: d.name != name
  {
    for i := 0 to |catalog|
      invariant forall j :: 0 <= j < i ==> catalog[j].name != name
    {
      if catalog[i].name == name {
        return Some(catalog[i]);
      }
    }
    return None;
  }

  const CLASS_NAMES: seq<string> := ["file", "process", "memory", "network", "signal", "ipc"]

  /** sg_syscall_class_by_name: the mask has exactly the bit of the class. */
  method ClassByName(name: string) returns (mask: Option<nat>)
    ensures mask.Some? <==> name in CLASS_NAMES
    ensures mask.Some? ==> exists bit :: 0 <= bit < 6 && CLASS_NAMES[bit] == name && mask.value == Pow2(bit)
  {
    for bit := 0 to 6
      invariant forall j :: 0 <= j < bit ==> CLASS_NAMES[j] != name
    {
      if CLASS_NAMES[bit] == name {
        return Some(Pow2(bit));
      }
    }
    return None;
  }

  /** The sign of strcmp: bytewise lexicographic, a proper prefix first. */
  function StrCmp(a: string, b: string): int {
    if a == [] && b == [] then 0
    else if a == [] then -1
    else if b == [] then 1
    else if a[0] != b[0] then (if a[0] < b[0] then -1 else 1)
    else StrCmp(a[1..], b[1..])
  }

  lemma {:induction false} StrCmpZero(a: string, b: string)
    ensures StrCmp(a, b) == 0 <==> a == b
  {
    if a != [] && b != [] && a[0] == b[0] {
      StrCmpZero(a[1..], b[1..]);
      assert a == [a[0]] + a[1..] && b == [b[0]] + b[1..];
    }
  }

  lemma {:induction false} StrCmpAntisymmetric(a: string, b: string)
    ensures StrCmp(a, b) < 0 <==> StrCmp(b, a) > 0
  {
    if a != [] && b != [] && a[0] == b[0] {
      StrCmpAntisymmetric(a[1..], b[1..]);
    }
  }

  lemma {:induction false} StrCmpTransitive(a: string, b: string, c: string)
    requires StrCmp(a, b) < 0 && StrCmp(b, c) < 0
    ensures StrCmp(a, c) < 0
  {
    if a != [] && c != [] && a[0] == b[0] && b[0] == c[0] {
      StrCmpTransitive(a[1..], b[1..], c[1..]);
    }
  }
}
