/**
 * The course site's student-loading script: each listed student is added to
 * the student table unless a student with the same name is already there.
 */
module Students {
  datatype Date = Date(year: int, month: int, day: int)

  /** The birthday every added student gets. */
  const DefaultBirthday: Date := Date(2000, 1, 1)
  const EmailDomain: string := "@cycu.edu.tw"

  /** One row of the student table. */
  datatype Student = Student(name: string, sex: string, birthday: Date, email: string, phone: string, address: string)

  /** One entry of the script's list: student number, name and sex. */
  datatype Listed = Listed(id: string, name: string, sex: string)

  const StudentList: seq<Listed> := [
    Listed("11144209", "潘驄杰", "M"),
    Listed("11144272", "劉曦鴻", "M"),
    Listed("11144256", "王盛峰", "M"),
    Listed("11144225", "蔡曉慧", "F"),
    Listed("11144206", "阮祐華", "M")
  ]

  /** The row created for a listed student. */
  function RecordFor(s: Listed): (r: Student)
    ensures r.name == s.name && r.sex == s.sex && r.birthday == DefaultBirthday
    ensures s.id <= r.email && r.email[|s.id|..] == EmailDomain
    ensures r.phone == "" && r.address == ""
  {
    Student(s.name, s.sex, DefaultBirthday, s.id + EmailDomain, "", "")
  }

  /** `Student.objects.filter(sName=name).exists()` */
  predicate HasName(rows: seq<Student>, name: string)
    ensures HasName(rows, name) <==> exists r :: r in rows && r.name == name
  {
    exists k :: 0 <= k < |rows| && rows[k].name == name
  }

  /** No two rows share a name. */
  predicate NamesDistinct(rows: seq<Student>) {
    forall i, j :: 0 <= i < j < |rows| ==> rows[i].name != rows[j].name
  }

  /** The table after processing `list` in order, starting from `rows`. */
  function AfterAdd(rows: seq<Student>, list: seq<Listed>): (r: seq<Student>)
    ensures |rows| <= |r| <= |rows| + |list|
    decreases |list|
  {
    if list == [] then rows
    else
      var before := AfterAdd(rows, list[..|list| - 1]);
      var s := list[|list| - 1];
      if HasName(before, s.name) then before else before + [RecordFor(s)]
  }

  /** Rows already in the table stay, unchanged and in place; rows are only ever appended. */
  lemma {:induction false} AfterAddKeepsRows(rows: seq<Student>, list: seq<Listed>)
    ensures rows <= AfterAdd(rows, list)
    decreases |list|
  {
    if list != [] {
      AfterAddKeepsRows(rows, list[..|list| - 1]);
    }
  }

  /** Every listed name is in the table afterwards. */
  lemma {:induction false} AfterAddHasAll(rows: seq<Student>, list: seq<Listed>, k: nat)
    requires k < |list|
    ensures HasName(AfterAdd(rows, list), list[k].name)
    decreases |list|
  {
    var prefix := list[..|list| - 1];
    var before := AfterAdd(rows, prefix);
    AfterAddKeepsRows(before, [list[|list| - 1]]);
    if k < |list| - 1 {
      AfterAddHasAll(rows, prefix, k);
      var i :| 0 <= i < |before| && before[i].name == prefix[k].name;
      assert AfterAdd(rows, list)[i] == before[i];
    } else if !HasName(before, list[k].name) {
      assert AfterAdd(rows, list)[|before|] == RecordFor(list[k]);
    }
  }

  /** A row is added for a listed student only when no row had that name, and it is the student's record. */
  lemma {:induction false} AddedRowsAreRecords(rows: seq<Student>, list: seq<Listed>, k: nat)
    requires |rows| <= k < |AfterAdd(rows, list)|
    ensures exists j :: 0 <= j < |list| && AfterAdd(rows, list)[k] == RecordFor(list[j]) && !HasName(rows, list[j].name)
    decreases |list|
  {
    var prefix := list[..|list| - 1];
    var before := AfterAdd(rows, prefix);
    AfterAddKeepsRows(rows, prefix);
    if k < |before| {
      AddedRowsAreRecords(rows, prefix, k);
      var j :| 0 <= j < |prefix| && before[k] == RecordFor(prefix[j]) && !HasName(rows, prefix[j].name);
      assert list[j] == prefix[j];
    } else {
      var j := |list| - 1;
      assert !HasName(before, list[j].name);
    }
  }

  /** When every listed name is already present, nothing is added. */
  lemma {:induction false} NothingNewToAdd(rows: seq<Student>, list: seq<Listed>)
    requires forall k :: 0 <= k < |list| ==> HasName(rows, list[k].name)
    ensures AfterAdd(rows, list) == rows
    decreases |list|
  {
    if list != [] {
      NothingNewToAdd(rows, list[..|list| - 1]);
    }
  }

  /** A second run adds nothing. */
  lemma AddTwice(rows: seq<Student>, list: seq<Listed>)
    ensures AfterAdd(AfterAdd(rows, list), list) == AfterAdd(rows, list)
  {
    forall k | 0 <= k < |list| ensures HasName(AfterAdd(rows, list), list[k].name) {
      AfterAddHasAll(rows, list, k);
    }
    NothingNewToAdd(AfterAdd(rows, list), list);
  }

  /** The list is processed front to back: running it in two parts is running it whole. */
  lemma {:induction false} AfterAddConcat(rows: seq<Student>, a: seq<Listed>, b: seq<Listed>)
    ensures AfterAdd(rows, a + b) == AfterAdd(AfterAdd(rows, a), b)
    decreases |b|
  {
    if b == [] {
      assert a + b == a;
    } else {
      assert (a + b)[..|a + b| - 1] == a + b[..|b| - 1];
      AfterAddConcat(rows, a, b[..|b| - 1]);
    }
  }

  /** The name check keeps a table without duplicate names free of them. */
  lemma {:induction false} AfterAddKeepsNamesDistinct(rows: seq<Student>, list: seq<Listed>)
    requires NamesDistinct(rows)
    ensures NamesDistinct(AfterAdd(rows, list))
    decreases |list|
  {
    if list != [] {
      AfterAddKeepsNamesDistinct(rows, list[..|list| - 1]);
    }
  }

  /** The records of a list, in list order. */
  function Records(list: seq<Listed>): (records: seq<Student>) {
    seq(|list|, k requires 0 <= k < |list| => RecordFor(list[k]))
  }

  /** Starting from an empty table, a list without repeated names is added whole, in list order. */
  lemma {:induction false} DistinctListAddedWhole(list: seq<Listed>)
    requires forall i, j :: 0 <= i < j < |list| ==> list[i].name != list[j].name
    ensures AfterAdd([], list) == Records(list)
    decreases |list|
  {
    if list != [] {
      var n := |list| - 1;
      var prefix := list[..n];
      DistinctListAddedWhole(prefix);
      var before := Records(prefix);
      assert !HasName(before, list[n].name) by {
        forall i | 0 <= i < n ensures before[i].name != list[n].name {
          assert before[i].name == list[i].name;
        }
      }
      assert Records(list) == before + [RecordFor(list[n])];
    }
  }

  /** The listed names are pairwise different. */
  lemma StudentNamesDistinct()
    ensures forall i, j :: 0 <= i < j < |StudentList| ==> StudentList[i].name != StudentList[j].name
  {
    forall i, j | 0 <= i < j < |StudentList| ensures StudentList[i].name != StudentList[j].name {
      assert StudentList[i].name[0] != StudentList[j].name[0];
    }
  }

  /** On an empty table the script adds the five listed students, in list order. */
  lemma FromEmpty()
    ensures AfterAdd([], StudentList) == Records(StudentList)
  {
    StudentNamesDistinct();
    DistinctListAddedWhole(StudentList);
  }

  /** The student table, as the list of its rows in insertion order. */
  class StudentTable {
    var rows: seq<Student>

    constructor ()
      ensures rows == []
    {
      rows := [];
    }

    /** `Student.objects.create(...)`: appends the row. */
    method Create(s: Student)
      modifies this
      ensures rows == old(rows) + [s]
    {
      rows := rows + [s];
    }

    /** The script's loop: each listed student not yet present by name is created, in list order. */
    method AddStudents()
      modifies this
      ensures rows == AfterAdd(old(rows), StudentList)
    {
      var list := StudentList;
      for i := 0 to |list|
        invariant rows == AfterAdd(old(rows), list[..i])
      {
        assert list[..i + 1][..i] == list[..i];
        var student := list[i];
        if !HasName(rows, student.name) {
          Create(RecordFor(student));
        }
      }
      assert list[..|list|] == list;
    }
  }
}
