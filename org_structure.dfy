/** The organisation table: the departments and, per department name, the
    teams that can be picked for it. */
module OrgStructure {

  datatype Department = Department(id: string, name: string)

  const Departments: seq<Department> := [
    Department("d-3001", "Customer Support"),
    Department("d-3002", "Sales"),
    Department("d-3003", "Technical Support")
  ]

  const TeamsByDepartment: map<string, seq<string>> := map[
    "Customer Support" := ["Tier 1", "Tier 2", "Escalations"],
    "Sales" := ["Inside Sales", "Field Sales", "Account Execs"],
    "Technical Support" := ["Level 1", "Level 2"]
  ]

  /** `getTeamsForDept`: the team list of a known department, and no teams
      for an empty or unknown name. */
  function TeamsForDept(departmentName: string): (r: seq<string>)
    ensures departmentName == "" ==> r == []
    ensures departmentName in TeamsByDepartment ==> r == TeamsByDepartment[departmentName]
    ensures departmentName !in TeamsByDepartment ==> r == []
  {
    if departmentName == "" then []
    else if departmentName in TeamsByDepartment then TeamsByDepartment[departmentName]
    else []
  }

  /** Every listed department has a non-empty team list, and the team table
      lists no other department. */
  lemma DepartmentsHaveTeams()
    ensures forall d :: d in Departments ==> d.name in TeamsByDepartment && |TeamsByDepartment[d.name]| > 0
    ensures forall n :: n in TeamsByDepartment ==> exists d :: d in Departments && d.name == n
  {
    assert Departments[0].name == "Customer Support";
    assert Departments[1].name == "Sales";
    assert Departments[2].name == "Technical Support";
  }

  /** A name has teams exactly when it is the name of a listed department. */
  lemma TeamsIffDepartment(departmentName: string)
    ensures TeamsForDept(departmentName) != [] <==> exists d :: d in Departments && d.name == departmentName
  {
    DepartmentsHaveTeams();
  }
}
