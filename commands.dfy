/**
  The command table of blkzone and its lookup: a verb on the command line picks
  exactly one entry of the two-entry table, or none.
 */
module Commands {
  import opened Wrappers

  /** Which handler an entry runs: blkzone_report or blkzone_reset. */
  datatype Handler = ReportZones | ResetZones

  datatype Command = Command(name: string, handler: Handler, help: string)

  /** The static `commands` table, in its order. */
  const Table: seq<Command> := [
    Command("report", ReportZones, "Report zone information about the given device"),
    Command("reset", ResetZones, "Reset a range of zones.")
  ]

  /** The first entry of `table` whose name is `name`, if any. */
  function Find(table: seq<Command>, name: string): (r: Option<Command>)
    ensures r.Some? ==> r.value in table && r.value.name == name
    ensures r.None? <==> forall i :: 0 <= i < |table| ==> table[i].name != name
    ensures r.Some? ==> exists i :: 0 <= i < |table| && table[i] == r.value
                                  && forall j :: 0 <= j < i ==> table[j].name != name
  {
    if table == [] then None
    else if table[0].name == name then Some(table[0])
    else
      var r := Find(table[1..], name);
      assert r.Some? ==> forall j :: 0 <= j < |table[1..]| ==> table[1..][j] == table[j + 1];
      r
  }

  /** name_to_command: a linear search of the table that returns the first entry with the given name. */
  method NameToCommand(name: string) returns (r: Option<Command>)
    ensures r == Find(Table, name)
    ensures name == "report" ==> r == Some(Table[0])
    ensures name == "reset" ==> r == Some(Table[1])
    ensures name != "report" && name != "reset" ==> r == None
  {
    var i := 0;
    while i < |Table|
      invariant 0 <= i <= |Table|
      invariant Find(Table, name) == Find(Table[i..], name)
    {
      if Table[i].name == name {
        return Some(Table[i]);
      }
      assert Table[i..][1..] == Table[i + 1..];
      i := i + 1;
    }
    return None;
  }

  /** What the first command-line word selects before option parsing starts. */
  datatype Selection =
    | NoCommandWord          // argv[1] is missing or starts with '-': no command chosen here
    | UnknownCommand(word: string)
    | Selected(command: Command)

  /**
    main's first step: when there is an argv[1] that does not start with '-',
    it must name a command, and is consumed; otherwise nothing is chosen yet.
    An empty argv[1] starts with the NUL character, not '-', so it is looked up.
   */
  function SelectCommand(argv: seq<string>): (s: Selection)
    ensures s.NoCommandWord? <==> |argv| < 2 || (|argv[1]| > 0 && argv[1][0] == '-')
    ensures s.UnknownCommand? ==> s.word == argv[1] && Find(Table, argv[1]).None?
    ensures s.Selected? ==> s.command in Table && s.command.name == argv[1]
  {
    if |argv| >= 2 && (|argv[1]| == 0 || argv[1][0] != '-') then
      match Find(Table, argv[1])
      case None => UnknownCommand(argv[1])
      case Some(c) => Selected(c)
    else NoCommandWord
  }

  /** Only the two verbs select a command; each selects its own handler. */
  lemma SelectionByVerb(argv: seq<string>)
    requires |argv| >= 2
    ensures argv[1] == "report" ==> SelectCommand(argv) == Selected(Table[0]) && Table[0].handler == ReportZones
    ensures argv[1] == "reset" ==> SelectCommand(argv) == Selected(Table[1]) && Table[1].handler == ResetZones
    ensures (|argv[1]| == 0 || argv[1][0] != '-') && argv[1] != "report" && argv[1] != "reset" ==>
              SelectCommand(argv) == UnknownCommand(argv[1])
  {
  }
}
