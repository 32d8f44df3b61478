/** The pure helpers around the equipment extraction in src/utils.py: the
    multimodal content list sent with a request, the fallback to embedded
    defaults (and the dry run), and the human-readable summary of a parsed
    extraction result.  The request itself goes to a hosted model and is not
    part of this module; a request is described by a `Request` value. */
module Extraction {
  import opened Results
  import opened PyText

  // ---------------------------------------------------------------------
  // Content list

  /** One entry of the content list: `{"type": "input_file", ...}` or
      `{"type": "input_image", ...}`. */
  datatype ContentItem =
    | InputFile(fileId: string)
    | InputImage(fileId: string)

  /** At most the first two image ids (`image_ids[:2]`). */
  function FirstTwo(ids: seq<string>): (r: seq<string>)
    ensures |r| <= 2 && |r| <= |ids| && r == ids[..|r|]
    ensures |ids| >= 2 ==> |r| == 2
    ensures |ids| < 2 ==> r == ids
  {
    if |ids| <= 2 then ids else ids[..2]
  }

  /** One image entry per id that is neither empty nor whitespace only, in
      order. */
  function ImageItems(ids: seq<string>): seq<ContentItem>
  {
    if ids == [] then []
    else
      var n := |ids| - 1;
      ImageItems(ids[..n]) + (if Blank(ids[n]) then [] else [InputImage(ids[n])])
  }

  /** The content list: the document first, then the non-blank ids among the
      first two image ids. */
  function Content(fileId: string, imageIds: Option<seq<string>>): seq<ContentItem>
  {
    [InputFile(fileId)] + (if imageIds.Some? then ImageItems(FirstTwo(imageIds.value)) else [])
  }

  /** The loop of `call_openai_extraction` and `run_extraction` that builds
      the content list. */
  method BuildContent(fileId: string, imageIds: Option<seq<string>>) returns (content: seq<ContentItem>)
    ensures content == Content(fileId, imageIds)
  {
    content := [InputFile(fileId)];
    if imageIds.Some? && imageIds.value != [] {
      var ids := if |imageIds.value| <= 2 then imageIds.value else imageIds.value[..2];
      assert ids == FirstTwo(imageIds.value);
      for i := 0 to |ids|
        invariant content == [InputFile(fileId)] + ImageItems(ids[..i])
      {
        assert ids[..i + 1][..i] == ids[..i];
        var img := ids[i];
        if !Blank(img) {
          content := content + [InputImage(img)];
        }
      }
      assert ids[..|ids|] == ids;
    }
  }

  /** The image entries are exactly the non-blank ids, and there are no more
      of them than ids. */
  lemma {:induction false} ImageItemsMembers(ids: seq<string>)
    ensures |ImageItems(ids)| <= |ids|
    ensures forall c :: c in ImageItems(ids) ==> c.InputImage?
    ensures forall id :: InputImage(id) in ImageItems(ids) <==> id in ids && !Blank(id)
    decreases |ids|
  {
    if ids != [] {
      var n := |ids| - 1;
      ImageItemsMembers(ids[..n]);
      assert ids == ids[..n] + [ids[n]];
    }
  }

  /** When no id is blank every one of them becomes an image entry, in
      order. */
  lemma {:induction false} ImageItemsAllKept(ids: seq<string>)
    requires forall i :: 0 <= i < |ids| ==> !Blank(ids[i])
    ensures |ImageItems(ids)| == |ids|
    ensures forall i :: 0 <= i < |ids| ==> ImageItems(ids)[i] == InputImage(ids[i])
    decreases |ids|
  {
    if ids != [] {
      var n := |ids| - 1;
      var p := ids[..n];
      assert forall i :: 0 <= i < |p| ==> p[i] == ids[i];
      ImageItemsAllKept(p);
      assert ImageItems(ids) == ImageItems(p) + [InputImage(ids[n])];
      forall i | 0 <= i < |ids| ensures ImageItems(ids)[i] == InputImage(ids[i]) {
        if i < n {
          assert ImageItems(ids)[i] == ImageItems(p)[i];
        }
      }
    }
  }

  /** The content list starts with the document, holds at most two more
      entries, all of them images, and an image is in it exactly when it is
      a non-blank id among the first two. */
  lemma ContentShape(fileId: string, imageIds: Option<seq<string>>)
    ensures var c := Content(fileId, imageIds);
      && 1 <= |c| <= 3
      && c[0] == InputFile(fileId)
      && (forall i :: 1 <= i < |c| ==> c[i].InputImage?)
      && (forall id :: InputImage(id) in c <==> imageIds.Some? && id in FirstTwo(imageIds.value) && !Blank(id))
  {
    var c := Content(fileId, imageIds);
    if imageIds.Some? {
      var items := ImageItems(FirstTwo(imageIds.value));
      ImageItemsMembers(FirstTwo(imageIds.value));
      assert c == [InputFile(fileId)] + items;
      forall i | 1 <= i < |c| ensures c[i].InputImage? {
        assert c[i] == items[i - 1];
        assert c[i] in items;
      }
    }
  }

  /** When the first two image ids are non-blank, they all make it into the
      list; what comes after them does not matter. */
  lemma ContentKeepsImages(fileId: string, ids: seq<string>)
    requires forall i :: 0 <= i < |ids| && i < 2 ==> !Blank(ids[i])
    ensures var c := Content(fileId, Some(ids));
      && |c| == 1 + (if |ids| < 2 then |ids| else 2)
      && forall i :: 1 <= i < |c| ==> c[i] == InputImage(ids[i - 1])
  {
    var two := FirstTwo(ids);
    assert forall i :: 0 <= i < |two| ==> two[i] == ids[i] && !Blank(two[i]);
    ImageItemsAllKept(two);
  }

  // ---------------------------------------------------------------------
  // Defaults and the dry run

  /** Python truthiness of an optional string: neither `None` nor empty. */
  predicate Given(s: Option<string>)
  {
    s.Some? && s.value != ""
  }

  const DefaultPromptId: string := "pmpt_68d3321897f481979180ca9152284cd00a7317fbe81972f1"

  /** The embedded request content: two images, then the document. */
  const DefaultContent: seq<ContentItem> := [
    InputImage("file-RYMeojcDFBtoDYNwne2XHe"),
    InputImage("file-91iJcHy825krxoJeR1pRR6"),
    InputFile("file-2rs6FKsigL6J9LQyf8hDB4")
  ]

  /** `DEFAULT_CONTENT[-1]["file_id"]`, the fallback document id. */
  const DefaultFileId: string := DefaultContent[|DefaultContent| - 1].fileId

  /** What `run_extraction` does with its arguments: report them in a dry
      run, or send one request. */
  datatype Request =
    | DryRun(promptId: string, fileId: string, imageIds: Option<seq<string>>)
    | Call(promptId: string, content: seq<ContentItem>)

  /** `x or default` for an optional string. */
  function OrDefault(s: Option<string>, fallback: string): string
  {
    if Given(s) then s.value else fallback
  }

  /** The choice `run_extraction` makes before calling out: a dry run
      reports the ids it would use; otherwise a missing prompt id or a
      missing document id sends the embedded defaults, and both given send
      the provided prompt with the content list built from them. */
  function Plan(promptId: Option<string>, fileId: Option<string>, imageIds: Option<seq<string>>, dryRun: bool): Request
  {
    var usedPrompt := OrDefault(promptId, DefaultPromptId);
    var usedFile := OrDefault(fileId, DefaultFileId);
    if dryRun then DryRun(usedPrompt, usedFile, imageIds)
    else if !Given(promptId) || !Given(fileId) then Call(DefaultPromptId, DefaultContent)
    else Call(usedPrompt, Content(usedFile, imageIds))
  }

  /** A dry run never sends anything; it reports each id given, or the
      default in its place, and echoes the image ids unchanged. */
  lemma DryRunReports(promptId: Option<string>, fileId: Option<string>, imageIds: Option<seq<string>>)
    ensures var r := Plan(promptId, fileId, imageIds, true);
      && r.DryRun?
      && r.promptId == (if Given(promptId) then promptId.value else DefaultPromptId)
      && r.fileId == (if Given(fileId) then fileId.value else "file-2rs6FKsigL6J9LQyf8hDB4")
      && r.imageIds == imageIds
  {
  }

  /** A real run sends the provided ids exactly when both are given; the
      document then comes first in the content, followed only by images. */
  lemma CallUsesProvided(promptId: Option<string>, fileId: Option<string>, imageIds: Option<seq<string>>)
    ensures var r := Plan(promptId, fileId, imageIds, false);
      && r.Call?
      && (Given(promptId) && Given(fileId) ==>
            r.promptId == promptId.value && r.content == Content(fileId.value, imageIds) && r.content[0] == InputFile(fileId.value))
      && (!(Given(promptId) && Given(fileId)) ==> r == Call(DefaultPromptId, DefaultContent))
  {
    if Given(promptId) && Given(fileId) {
      ContentShape(fileId.value, imageIds);
    }
  }

  /** The prompt a dry run reports is the one a real run would send, unless
      a prompt id is given without a document id (the real run then falls
      back to the default prompt). */
  lemma DryRunPromptAgrees(promptId: Option<string>, fileId: Option<string>, imageIds: Option<seq<string>>)
    ensures Plan(promptId, fileId, imageIds, true).promptId == Plan(promptId, fileId, imageIds, false).promptId
      <==> !Given(promptId) || Given(fileId) || promptId.value == DefaultPromptId
  {
  }

  /** The document a dry run reports is sent by a real run, unless a
      document id is given without a prompt id. */
  lemma DryRunFileAgrees(promptId: Option<string>, fileId: Option<string>, imageIds: Option<seq<string>>)
    ensures InputFile(Plan(promptId, fileId, imageIds, true).fileId) in Plan(promptId, fileId, imageIds, false).content
      <==> Given(promptId) || !Given(fileId) || fileId.value == DefaultFileId
  {
    var dry := Plan(promptId, fileId, imageIds, true);
    var call := Plan(promptId, fileId, imageIds, false);
    if Given(promptId) && Given(fileId) {
      ContentShape(fileId.value, imageIds);
      assert call.content[0] == InputFile(dry.fileId);
    } else {
      assert call.content == DefaultContent;
      assert InputFile(dry.fileId) in DefaultContent <==> dry.fileId == DefaultFileId;
    }
  }

  // ---------------------------------------------------------------------
  // Summary of a result

  /** One piece of equipment as the extraction reports it. */
  datatype EquipmentEntry = EquipmentEntry(found: bool, manufacturer: Option<string>, model: Option<string>,
                                           evidenceNote: Option<string>)

  /** A parsed result: for each type of equipment, an optional list. */
  datatype ExtractionResult = ExtractionResult(inverter: Option<seq<EquipmentEntry>>, pvModule: Option<seq<EquipmentEntry>>,
                                               rackingSystem: Option<seq<EquipmentEntry>>)

  /** The equipment types, in the order the summary lists them. */
  const Labels: seq<string> := ["Inverter", "Module", "Racking System"]

  /** The bullet that opens each block, exactly as the source text spells
      it (the bytes of a wrench emoji decoded a second time). */
  const Bullet: string := "\U{11F}\U{178}\U{201D}\U{A7}"

  /** `str.lower()` on ASCII letters. */
  function Lower(s: string): (r: string)
    ensures |r| == |s|
  {
    seq(|s|, i requires 0 <= i < |s| => if 'A' <= s[i] <= 'Z' then (s[i] as int + 32) as char else s[i])
  }

  /** `s.replace(" ", "_")`. */
  function Underscored(s: string): (r: string)
    ensures |r| == |s|
  {
    seq(|s|, i requires 0 <= i < |s| => if s[i] == ' ' then '_' else s[i])
  }

  /** The attribute a type is looked up under. */
  function FieldName(kind: string): string
  {
    Underscored(Lower(kind))
  }

  lemma FieldNames()
    ensures FieldName("Inverter") == "inverter"
    ensures FieldName("Module") == "module"
    ensures FieldName("Racking System") == "racking_system"
  {
  }

  /** `getattr(result, name, None)`. */
  function Attr(r: ExtractionResult, name: string): Option<seq<EquipmentEntry>>
  {
    if name == "inverter" then r.inverter
    else if name == "module" then r.pvModule
    else if name == "racking_system" then r.rackingSystem
    else None
  }

  /** `str(b)` for a Python bool. */
  function BoolText(b: bool): string
  {
    if b then "True" else "False"
  }

  /** The line `<prefix><value>` when the field is neither `None` nor
      empty. */
  function FieldLine(prefix: string, v: Option<string>): seq<string>
  {
    if Given(v) then [prefix + v.value] else []
  }

  /** The block for one entry: heading, found flag, the fields that are
      present, and an empty line. */
  function EntryLines(kind: string, e: EquipmentEntry): seq<string>
  {
    [Bullet + " " + kind + ":", "   Found: " + BoolText(e.found)]
      + FieldLine("   Manufacturer: ", e.manufacturer)
      + FieldLine("   Model: ", e.model)
      + FieldLine("   Note: ", e.evidenceNote)
      + [""]
  }

  /** The block for one type: only its first entry, and nothing when the
      list is missing or empty. */
  function TypeLines(kind: string, list: Option<seq<EquipmentEntry>>): seq<string>
  {
    if list.Some? && |list.value| > 0 then EntryLines(kind, list.value[0]) else []
  }

  /** The blocks for the given labels, in order. */
  function LinesFor(r: ExtractionResult, labels: seq<string>): seq<string>
  {
    if labels == [] then []
    else
      var n := |labels| - 1;
      LinesFor(r, labels[..n]) + TypeLines(labels[n], Attr(r, FieldName(labels[n])))
  }

  /** The reference definition of `format_extraction_results`. */
  function Summary(result: Option<ExtractionResult>): string
  {
    match result
    case None => "No extraction results available"
    case Some(r) =>
      var lines := LinesFor(r, Labels);
      if lines == [] then "No equipment found" else Join(lines, '\n')
  }

  /** `format_extraction_results`: the loop over the three types that
      collects the lines. */
  method FormatExtractionResults(result: Option<ExtractionResult>) returns (s: string)
    ensures s == Summary(result)
  {
    if result.None? {
      return "No extraction results available";
    }
    var r := result.value;
    FieldNames();
    var lines: seq<string> := [];
    var labels := ["Inverter", "Module", "Racking System"];
    assert labels == Labels;
    for i := 0 to |labels|
      invariant lines == LinesFor(r, labels[..i])
    {
      assert labels[..i + 1][..i] == labels[..i];
      var equipmentType := labels[i];
      var equipmentList := Attr(r, FieldName(equipmentType));
      if equipmentList.Some? && |equipmentList.value| > 0 {
        var equipment := equipmentList.value[0];
        lines := AppendEntry(lines, equipmentType, equipment);
      }
    }
    assert labels[..|labels|] == labels;
    s := if lines == [] then "No equipment found" else Join(lines, '\n');
  }

  /** The body of that loop for a type that has an entry: the statement
      form of `EntryLines`, appending one line at a time. */
  method AppendEntry(lines0: seq<string>, equipmentType: string, equipment: EquipmentEntry) returns (lines: seq<string>)
    ensures lines == lines0 + EntryLines(equipmentType, equipment)
  {
    var heading, found := Bullet + " " + equipmentType + ":", "   Found: " + BoolText(equipment.found);
    lines := lines0 + [heading];
    lines := lines + [found];
    assert lines == lines0 + [heading, found];
    lines := AppendField(lines, "   Manufacturer: ", equipment.manufacturer);
    lines := AppendField(lines, "   Model: ", equipment.model);
    lines := AppendField(lines, "   Note: ", equipment.evidenceNote);
    lines := lines + [""];
    AppendsInOrder(lines0, [heading, found], FieldLine("   Manufacturer: ", equipment.manufacturer),
      FieldLine("   Model: ", equipment.model), FieldLine("   Note: ", equipment.evidenceNote));
  }

  /** `if value: lines.append(prefix + value)`: the statement form of
      `FieldLine`. */
  method AppendField(lines0: seq<string>, prefix: string, v: Option<string>) returns (lines: seq<string>)
    ensures lines == lines0 + FieldLine(prefix, v)
  {
    lines := lines0;
    if Given(v) {
      lines := lines + [prefix + v.value];
    }
  }

  lemma AppendsInOrder(a: seq<string>, b: seq<string>, c: seq<string>, d: seq<string>, e: seq<string>)
    ensures a + b + c + d + e + [""] == a + (b + c + d + e + [""])
  {
  }

  /** Each label is looked up under the field of the same type, so the
      blocks come in the order inverter, module, racking system. */
  lemma LinesByField(r: ExtractionResult)
    ensures LinesFor(r, Labels) ==
      TypeLines("Inverter", r.inverter) + TypeLines("Module", r.pvModule) + TypeLines("Racking System", r.rackingSystem)
  {
    FieldNames();
    var l2, l1 := Labels[..2], Labels[..1];
    assert Labels[..|Labels| - 1] == l2 && l2[..|l2| - 1] == l1 && l1[..|l1| - 1] == [];
    assert LinesFor(r, l1) == TypeLines("Inverter", r.inverter);
    assert LinesFor(r, l2) == LinesFor(r, l1) + TypeLines("Module", r.pvModule);
  }

  /** The first entry of a list, if there is one. */
  function First(list: Option<seq<EquipmentEntry>>): Option<EquipmentEntry>
  {
    if list.Some? && |list.value| > 0 then Some(list.value[0]) else None
  }

  /** No type has an entry. */
  predicate NoEquipment(r: ExtractionResult)
  {
    First(r.inverter).None? && First(r.pvModule).None? && First(r.rackingSystem).None?
  }

  /** Only the first entry of each type is shown: results that agree on
      the first entries have the same summary. */
  lemma SummaryUsesFirstEntries(r1: ExtractionResult, r2: ExtractionResult)
    requires First(r1.inverter) == First(r2.inverter)
    requires First(r1.pvModule) == First(r2.pvModule)
    requires First(r1.rackingSystem) == First(r2.rackingSystem)
    ensures Summary(Some(r1)) == Summary(Some(r2))
  {
    LinesByField(r1);
    LinesByField(r2);
  }

  /** The three kinds of answer are told apart: the two fixed messages
      for a missing result and for one without equipment, and otherwise a
      text that opens with the bullet of the first block. */
  lemma SummaryCases(result: Option<ExtractionResult>)
    ensures result.None? ==> Summary(result) == "No extraction results available"
    ensures result.Some? ==> (Summary(result) == "No equipment found" <==> NoEquipment(result.value))
    ensures result.Some? && !NoEquipment(result.value) ==>
      |Summary(result)| >= |Bullet| && Summary(result)[..|Bullet|] == Bullet
  {
    if result.Some? {
      var r := result.value;
      if NoEquipment(r) {
        LinesByField(r);
      } else {
        SummaryJoins(r);
        var a, b, c := TypeLines("Inverter", r.inverter), TypeLines("Module", r.pvModule), TypeLines("Racking System", r.rackingSystem);
        var lines := a + b + c;
        if a != [] {
          assert lines[0] == a[0];
          TypeHead("Inverter", r.inverter);
        } else if b != [] {
          assert lines[0] == b[0];
          TypeHead("Module", r.pvModule);
        } else {
          assert lines[0] == c[0];
          TypeHead("Racking System", r.rackingSystem);
        }
        JoinOpensWithBullet(lines);
      }
    }
  }

  /** A block opens with the bullet. */
  lemma TypeHead(kind: string, list: Option<seq<EquipmentEntry>>)
    requires TypeLines(kind, list) != []
    ensures var head := TypeLines(kind, list)[0]; |head| >= |Bullet| && head[..|Bullet|] == Bullet
  {
    var head := TypeLines(kind, list)[0];
    assert head == Bullet + (" " + kind + ":");
  }

  /** Lines whose first line opens with the bullet join into a text that
      opens with the bullet, which no fixed message does. */
  lemma JoinOpensWithBullet(lines: seq<string>)
    requires lines != [] && |lines[0]| >= |Bullet| && lines[0][..|Bullet|] == Bullet
    ensures var out := Join(lines, '\n');
      |out| >= |Bullet| && out[..|Bullet|] == Bullet && out != "No equipment found"
  {
    JoinStartsWith(lines, '\n');
    var out := Join(lines, '\n');
    assert out[..|Bullet|] == out[..|lines[0]|][..|Bullet|];
    assert out[0] == Bullet[0];
  }

  /** The lines of one block: the heading, the found flag, then a line for
      each field exactly when that field is neither `None` nor empty, and
      an empty line at the end. */
  lemma EntryShowsFields(kind: string, e: EquipmentEntry, v: string)
    ensures var ls := EntryLines(kind, e);
      && ls[0] == Bullet + " " + kind + ":"
      && ls[1] == "   Found: " + BoolText(e.found)
      && ls[|ls| - 1] == ""
      && (("   Manufacturer: " + v) in ls <==> e.manufacturer == Some(v) && v != "")
      && (("   Model: " + v) in ls <==> e.model == Some(v) && v != "")
      && (("   Note: " + v) in ls <==> e.evidenceNote == Some(v) && v != "")
  {
    ShowsManufacturer(kind, e, v);
    ShowsModel(kind, e, v);
    ShowsNote(kind, e, v);
  }

  lemma ShowsManufacturer(kind: string, e: EquipmentEntry, v: string)
    ensures ("   Manufacturer: " + v) in EntryLines(kind, e) <==> e.manufacturer == Some(v) && v != ""
  {
    var x := "   Manufacturer: " + v;
    var heading, found := Bullet + " " + kind + ":", "   Found: " + BoolText(e.found);
    var fm, fo, fn := FieldLine("   Manufacturer: ", e.manufacturer), FieldLine("   Model: ", e.model), FieldLine("   Note: ", e.evidenceNote);
    assert EntryLines(kind, e) == [heading, found] + fm + fo + fn + [""];
    InBlock(x, heading, found, fm, fo, fn);
    TagOf("   Manufacturer: ", v, 4, 'a');
    assert x[3] == 'M' && heading[0] == Bullet[0] && found[4] == 'o';
    FieldLineTag("   Manufacturer: ", e.manufacturer, v, 4, 'a');
    FieldLineTag("   Model: ", e.model, v, 4, 'o');
    FieldLineTag("   Note: ", e.evidenceNote, v, 3, 'N');
  }

  lemma ShowsModel(kind: string, e: EquipmentEntry, v: string)
    ensures ("   Model: " + v) in EntryLines(kind, e) <==> e.model == Some(v) && v != ""
  {
    var x := "   Model: " + v;
    var heading, found := Bullet + " " + kind + ":", "   Found: " + BoolText(e.found);
    var fm, fo, fn := FieldLine("   Manufacturer: ", e.manufacturer), FieldLine("   Model: ", e.model), FieldLine("   Note: ", e.evidenceNote);
    assert EntryLines(kind, e) == [heading, found] + fm + fo + fn + [""];
    InBlock(x, heading, found, fm, fo, fn);
    TagOf("   Model: ", v, 4, 'o');
    assert x[3] == 'M' && heading[0] == Bullet[0] && found[3] == 'F';
    FieldLineTag("   Manufacturer: ", e.manufacturer, v, 4, 'a');
    FieldLineTag("   Model: ", e.model, v, 4, 'o');
    FieldLineTag("   Note: ", e.evidenceNote, v, 3, 'N');
  }

  lemma ShowsNote(kind: string, e: EquipmentEntry, v: string)
    ensures ("   Note: " + v) in EntryLines(kind, e) <==> e.evidenceNote == Some(v) && v != ""
  {
    var x := "   Note: " + v;
    var heading, found := Bullet + " " + kind + ":", "   Found: " + BoolText(e.found);
    var fm, fo, fn := FieldLine("   Manufacturer: ", e.manufacturer), FieldLine("   Model: ", e.model), FieldLine("   Note: ", e.evidenceNote);
    assert EntryLines(kind, e) == [heading, found] + fm + fo + fn + [""];
    InBlock(x, heading, found, fm, fo, fn);
    TagOf("   Note: ", v, 3, 'N');
    assert heading[0] == Bullet[0] && found[3] == 'F';
    FieldLineTag("   Manufacturer: ", e.manufacturer, v, 3, 'M');
    FieldLineTag("   Model: ", e.model, v, 3, 'M');
    FieldLineTag("   Note: ", e.evidenceNote, v, 3, 'N');
  }

  lemma InBlock(x: string, heading: string, found: string, fm: seq<string>, fo: seq<string>, fn: seq<string>)
    ensures x in [heading, found] + fm + fo + fn + [""] <==> x == heading || x == found || x in fm || x in fo || x in fn || x == ""
  {
  }

  lemma TagOf(prefix: string, v: string, k: nat, c: char)
    requires k < |prefix| && prefix[k] == c
    ensures (prefix + v)[k] == c && |prefix + v| > k && (prefix + v)[0] == prefix[0]
  {
  }

  /** A field line carries the character of its prefix at position `k`,
      and holds `prefix + v` only when the field is `v`. */
  lemma FieldLineTag(prefix: string, f: Option<string>, v: string, k: nat, c: char)
    requires k < |prefix| && prefix[k] == c && prefix[0] == ' '
    ensures forall x :: x in FieldLine(prefix, f) ==> |x| > k && x[k] == c && x[0] == ' '
    ensures (prefix + v) in FieldLine(prefix, f) <==> f == Some(v) && v != ""
  {
    if Given(f) && prefix + v == prefix + f.value {
      assert (prefix + v)[|prefix|..] == v;
      assert (prefix + f.value)[|prefix|..] == f.value;
    }
  }

  /** No field of the entry that can be shown holds a line break. */
  predicate OneLineFields(e: EquipmentEntry)
  {
    && (e.manufacturer.Some? ==> '\n' !in e.manufacturer.value)
    && (e.model.Some? ==> '\n' !in e.model.value)
    && (e.evidenceNote.Some? ==> '\n' !in e.evidenceNote.value)
  }

  lemma EntryLinesOneLine(kind: string, e: EquipmentEntry)
    requires '\n' !in kind && OneLineFields(e)
    ensures forall i :: 0 <= i < |EntryLines(kind, e)| ==> '\n' !in EntryLines(kind, e)[i]
  {
    var ls := EntryLines(kind, e);
    forall i | 0 <= i < |ls| ensures '\n' !in ls[i] {
      assert ls[i] in ls;
    }
  }

  /** No line of the seq holds a line break. */
  predicate OneLine(lines: seq<string>)
  {
    forall i :: 0 <= i < |lines| ==> '\n' !in lines[i]
  }

  lemma TypeLinesOneLine(kind: string, list: Option<seq<EquipmentEntry>>)
    requires '\n' !in kind
    requires First(list).Some? ==> OneLineFields(First(list).value)
    ensures OneLine(TypeLines(kind, list))
    ensures First(list).Some? ==> TypeLines(kind, list) != []
  {
    if First(list).Some? {
      EntryLinesOneLine(kind, First(list).value);
    }
  }

  lemma ConcatOneLine(a: seq<string>, b: seq<string>, c: seq<string>)
    requires OneLine(a) && OneLine(b) && OneLine(c)
    ensures OneLine(a + b + c)
  {
    var lines := a + b + c;
    forall i | 0 <= i < |lines| ensures '\n' !in lines[i] {
      if i < |a| {
        assert lines[i] == a[i];
      } else if i < |a| + |b| {
        assert lines[i] == b[i - |a|];
      } else {
        assert lines[i] == c[i - |a| - |b|];
      }
    }
  }

  /** With some equipment, the summary is its lines joined by line breaks. */
  lemma SummaryJoins(r: ExtractionResult)
    requires !NoEquipment(r)
    ensures var lines := TypeLines("Inverter", r.inverter) + TypeLines("Module", r.pvModule) + TypeLines("Racking System", r.rackingSystem);
      lines != [] && Summary(Some(r)) == Join(lines, '\n')
  {
    LinesByField(r);
  }

  /** When no shown field holds a line break, splitting the summary at
      line breaks gives back exactly its lines. */
  lemma SummaryLines(r: ExtractionResult)
    requires !NoEquipment(r)
    requires First(r.inverter).Some? ==> OneLineFields(First(r.inverter).value)
    requires First(r.pvModule).Some? ==> OneLineFields(First(r.pvModule).value)
    requires First(r.rackingSystem).Some? ==> OneLineFields(First(r.rackingSystem).value)
    ensures Split(Summary(Some(r)), '\n') ==
      TypeLines("Inverter", r.inverter) + TypeLines("Module", r.pvModule) + TypeLines("Racking System", r.rackingSystem)
  {
    var a, b, c := TypeLines("Inverter", r.inverter), TypeLines("Module", r.pvModule), TypeLines("Racking System", r.rackingSystem);
    TypeLinesOneLine("Inverter", r.inverter);
    TypeLinesOneLine("Module", r.pvModule);
    TypeLinesOneLine("Racking System", r.rackingSystem);
    ConcatOneLine(a, b, c);
    SummaryJoins(r);
    SplitJoin(a + b + c, '\n');
  }
}
