/**
  Clients of the table and of the listing: what a caller can conclude from the contracts
  alone, for the end-to-end run of a text job and for the artifact listing.
*/
module Scenario {
  import opened Wrappers
  import opened Jobs
  import opened JobTable
  import Outputs

  method TextJob() {
    var table := new Table();
    var lake, args := table.Generate(Request(Some("t2s"), Some("a mountain lake"), None, None, None),
                                     "ab12cd34", "2026-01-01T00:00:00");
    assert table.Status(lake).value.status == Queued && table.Status(lake).value.prompt == "a mountain lake";
    assert !args.useSharp && !args.returnMesh;
    var before := table.jobs[lake];
    table.RunGeneration(lake, Success);
    RunResult(before, lake, Success);
    var job := table.Status(lake).value;
    assert job.status == Completed && job.message == "Generation complete!";
    assert job.outputFile == Some(OutputFileName("ab12cd34"));
    assert table.Status("00000000") == None;
  }

  /** The listing keeps the artifacts, in directory order, and drops everything else. */
  method Listing(size: string -> nat, modified: string -> string) {
    var names := ["notes.txt", "ab12cd34.ply", "old.glb"];
    var files := Outputs.ListOutputs(Some(names), size, modified);
    assert names == ["notes.txt"] + ["ab12cd34.ply"] + ["old.glb"];
    Outputs.KeepOutputsAppend(["notes.txt"] + ["ab12cd34.ply"], ["old.glb"]);
    Outputs.KeepOutputsAppend(["notes.txt"], ["ab12cd34.ply"]);
    Outputs.KeepOutputsSingle("notes.txt");
    Outputs.KeepOutputsSingle("ab12cd34.ply");
    Outputs.KeepOutputsSingle("old.glb");
    assert !Outputs.EndsWith("notes.txt", ".ply") && !Outputs.EndsWith("notes.txt", ".glb");
    assert Outputs.EndsWith("ab12cd34.ply", ".ply") && Outputs.EndsWith("old.glb", ".glb");
    assert |files| == 2 && files[0].name == "ab12cd34.ply" && files[1].name == "old.glb";
  }
}
