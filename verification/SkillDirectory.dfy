/** The skill store as the program updates it: the map and the directory. */
module SkillDirectory {
  import opened Wrappers
  import opened Skills
  import opened SkillStore

  datatype Failure = NotFound(name: string) | WriteFailed(file: string)

  class Directory {
    const alphanumeric: char -> bool
    var skills: map<string, Skill>
    var files: map<string, string>

    ghost function State(): Store
      reads this
    {
      Store(skills, files)
    }

    /** How this directory holds skills. */
    function Disk(): Disk {
      SkillDisk(alphanumeric)
    }

    ghost predicate Valid()
      reads this
    {
      forall n :: n in skills ==> skills[n].name == n
    }

    /** `open`: the files in the order the directory lists them; what does not parse is passed over. */
    constructor (alphanumeric: char -> bool, files: map<string, string>, order: seq<string>)
      requires Listing(order, files)
      ensures Valid() && State() == Store(Loaded(SkillDisk(alphanumeric), files, order), files) && this.alphanumeric == alphanumeric
    {
      this.alphanumeric, this.files := alphanumeric, files;
      var found: map<string, Skill> := map[];
      for k := 0 to |order|
        invariant found == Loaded(SkillDisk(alphanumeric), files, order[..k])
      {
        assert order[..k + 1][..k] == order[..k];
        var f := order[k];
        assert f in order;
        if MdFile(f) {
          var parsed := ParseSkill(files[f]);
          if parsed.Some? {
            found := found[parsed.value.name := parsed.value];
          }
        }
      }
      assert order[..|order|] == order;
      LoadedNames(SkillDisk(alphanumeric), files, order);
      skills := found;
    }

    method SaveToDisk(skill: Skill, wrote: bool) returns (r: Result<(), Failure>)
      modifies this`files
      ensures r == if wrote then Ok(()) else Err(WriteFailed(FileOf(alphanumeric, skill.name)))
      ensures files == if wrote then old(files)[Disk().file(skill.name) := Disk().show(skill)] else old(files)
    {
      var file := FileOf(alphanumeric, skill.name);
      if !wrote {
        return Err(WriteFailed(file));
      }
      files := files[file := ToMarkdown(skill)];
      return Ok(());
    }

    /** `create`: the file first, then memory; a failed write leaves both alone. */
    method CreateSkill(op: Op, wrote: bool) returns (r: Result<(), Failure>)
      requires Valid() && op.Create?
      modifies this
      ensures Valid()
      ensures State() == if wrote then Applied(Disk(), old(State()), op) else old(State())
      ensures r.Ok? <==> wrote
    {
      var skill := Fresh(op);
      r := SaveToDisk(skill, wrote);
      if r.Err? {
        return;
      }
      skills := skills[op.name := skill];
    }

    /** `improve` and `record_outcome`: memory first, so a failed write leaves the file behind. */
    method ChangeSkill(op: Op, wrote: bool) returns (r: Result<(), Failure>)
      requires Valid() && (op.Improve? || op.Outcome?)
      modifies this
      ensures Valid()
      ensures op.name !in old(skills) ==> r == Err(NotFound(op.name)) && State() == old(State())
      ensures op.name in old(skills) && wrote ==> r == Ok(()) && State() == Applied(Disk(), old(State()), op)
      ensures op.name in old(skills) && !wrote ==> (r.Err? && files == old(files)
                                                   && skills == old(skills)[op.name := Changed(old(skills)[op.name], op)])
    {
      if op.name !in skills {
        return Err(NotFound(op.name));
      }
      var skill := Changed(skills[op.name], op);
      skills := skills[op.name := skill];
      r := SaveToDisk(skill, wrote);
    }

    /** `delete`: a file that cannot be removed is left, and would be read again. */
    method DeleteSkill(name: string, removed: bool) returns (existed: bool)
      requires Valid()
      modifies this
      ensures Valid()
      ensures existed <==> name in old(skills)
      ensures removed ==> State() == Applied(Disk(), old(State()), Delete(name))
      ensures !removed ==> skills == old(skills) - {name} && files == old(files)
    {
      if name !in skills {
        assert skills - {name} == skills;
        return false;
      }
      skills := skills - {name};
      if removed {
        files := files - {FileOf(alphanumeric, name)};
      }
      return true;
    }
  }
}
