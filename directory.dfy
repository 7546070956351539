/**
 * The employee directory and its two lookups, `cariPegawaiByWa` and
 * `cariAtasanPegawai`. The directory is the `Internal` array of the JSON
 * database, loaded once and never changed.
 */
module Directory {
  import opened Wrappers

  /**
   * One directory record: `Nama Pegawai`, `No. HP (WA) aktif` and
   * `NO HP ATASAN`. A field missing from the JSON record is `None`.
   */
  datatype Employee = Employee(name: string, phone: Option<string>, supervisorPhone: Option<string>)

  /** The index of the first record `matches` accepts (`Array.prototype.find`). */
  function FirstWhere(dir: seq<Employee>, matches: Employee -> bool): (r: Option<nat>)
    ensures r.Some? ==> r.value < |dir| && matches(dir[r.value])
    ensures r.Some? ==> forall j :: 0 <= j < r.value ==> !matches(dir[j])
    ensures r.None? ==> forall j :: 0 <= j < |dir| ==> !matches(dir[j])
  {
    if dir == [] then None
    else if matches(dir[0]) then Some(0)
    else
      match FirstWhere(dir[1..], matches)
      case Some(i) => Some(i + 1)
      case None => None
  }

  /** The phone number `cariPegawaiByWa` compares, with a missing field read as empty. */
  function PhoneKey(e: Employee): string {
    e.phone.GetOr("")
  }

  /** The record at index `i` is the first one satisfying `matches`. */
  ghost predicate IsFirst(dir: seq<Employee>, matches: Employee -> bool, e: Employee) {
    exists i :: 0 <= i < |dir| && dir[i] == e && matches(e) && forall j :: 0 <= j < i ==> !matches(dir[j])
  }

  /** `cariPegawaiByWa`: the first record whose phone number equals `digits`, or nothing. */
  function FindByPhone(dir: seq<Employee>, digits: string): (r: Option<Employee>)
    ensures r.Some? ==> IsFirst(dir, e => PhoneKey(e) == digits, r.value)
    ensures r.None? <==> forall e :: e in dir ==> PhoneKey(e) != digits
  {
    match FirstWhere(dir, e => PhoneKey(e) == digits)
    case Some(i) => Some(dir[i])
    case None => None
  }

  /**
   * `cariAtasanPegawai`: no employee has no supervisor; otherwise the first
   * record whose phone field equals the employee's supervisor field, compared
   * as JavaScript's `===` compares them, so that a missing field equals a
   * missing field.
   */
  function FindSupervisor(dir: seq<Employee>, employee: Option<Employee>): (r: Option<Employee>)
    ensures employee.None? ==> r.None?
    ensures employee.Some? && r.Some? ==>
      IsFirst(dir, (e: Employee) => e.phone == employee.value.supervisorPhone, r.value)
    ensures employee.Some? ==>
      (r.None? <==> forall e :: e in dir ==> e.phone != employee.value.supervisorPhone)
  {
    match employee
    case None => None
    case Some(p) =>
      match FirstWhere(dir, (e: Employee) => e.phone == p.supervisorPhone)
      case Some(i) => Some(dir[i])
      case None => None
  }

  /**
   * An employee whose supervisor field is missing is given as supervisor the
   * first record whose own phone field is missing.
   */
  lemma MissingSupervisorFieldMatchesMissingPhone(dir: seq<Employee>, p: Employee, i: nat)
    requires p.supervisorPhone.None? && i < |dir| && dir[i].phone.None?
    ensures FindSupervisor(dir, Some(p)).Some?
    ensures FindSupervisor(dir, Some(p)).value.phone.None?
  {
    assert dir[i] in dir;
  }
}
