/** The JSON array file that both the golden updater and the API converter write:
    an opening "[\n", each record's serialised text after a tab, the records
    separated by ",\n", and a closing "\n]". The serialiser itself (`json.dumps`)
    is not modelled: the records arrive as their texts. */
module JsonFraming {
  import opened Strings

  const Separator := ",\n"

  function Tabbed(texts: seq<string>): (r: seq<string>)
    ensures |r| == |texts|
    ensures forall i :: 0 <= i < |texts| ==> r[i] == "\t" + texts[i]
  {
    seq(|texts|, i requires 0 <= i < |texts| => "\t" + texts[i])
  }

  /** The whole file. */
  function JsonArray(texts: seq<string>): string {
    "[\n" + Join(Tabbed(texts), Separator) + "\n]"
  }

  /** Reads a file of that shape back into its record texts. */
  function Records(file: string): seq<string> {
    if |file| < 4 then []
    else
      var body := file[2..|file| - 2];
      if body == "" then []
      else
        var parts := Split(body, Separator);
        seq(|parts|, i requires 0 <= i < |parts| => if |parts[i]| > 0 then parts[i][1..] else parts[i])
  }

  /** The writing loop: the opening bracket, then per record a tab and its text,
      a separator after every record but the last, then the closing bracket. */
  method WriteJsonArray(texts: seq<string>) returns (file: string)
    ensures file == JsonArray(texts)
  {
    var size := |texts|;
    file := "[\n";
    var index := 0;
    while index < size
      invariant 0 <= index <= size
      invariant file == "[\n" + Join(Tabbed(texts[..index]), Separator) + (if 0 < index < size then Separator else "")
    {
      WriteStep(texts, index);
      file := file + "\t" + texts[index];
      if index < size - 1 {
        file := file + Separator;
      }
      index := index + 1;
    }
    assert texts[..index] == texts;
    file := file + "\n]";
  }

  /** One more record written after the ones before it and their separator. */
  lemma WriteStep(texts: seq<string>, index: nat)
    requires index < |texts|
    ensures "[\n" + Join(Tabbed(texts[..index]), Separator) + (if 0 < index then Separator else "") + "\t" + texts[index] ==
      "[\n" + Join(Tabbed(texts[..index + 1]), Separator)
  {
    var before := Tabbed(texts[..index]);
    var x := "\t" + texts[index];
    assert Tabbed(texts[..index + 1]) == before + [x];
    JoinSnoc(before, x, Separator);
    var j := Join(before, Separator);
    if index == 0 {
      assert j == "";
      assert "[\n" + j + "" + "\t" + texts[index] == "[\n" + x;
    } else {
      assert "[\n" + j + Separator + "\t" + texts[index] == "[\n" + (j + Separator + x);
    }
  }

  /** Serialised records hold no raw line break (string values are escaped), so
      the file can be read back into exactly the records written. */
  lemma JsonArrayRoundTrip(texts: seq<string>)
    requires forall i :: 0 <= i < |texts| ==> '\n' !in texts[i]
    ensures Records(JsonArray(texts)) == texts
  {
    var file := JsonArray(texts);
    var body := Join(Tabbed(texts), Separator);
    assert file[2..|file| - 2] == body;
    if |texts| == 0 {
      assert body == "";
    } else {
      assert body != "" by {
        JoinNonEmpty(Tabbed(texts));
      }
      forall k | 0 <= k < |texts|
        ensures '\n' !in Tabbed(texts)[k]
      {
        assert Tabbed(texts)[k] == "\t" + texts[k];
      }
      assert Separator[|Separator| - 1] == '\n';
      assert Separator[..|Separator| - 1] == ",";
      SplitJoin(Tabbed(texts), Separator);
      assert Split(body, Separator) == Tabbed(texts);
      forall i | 0 <= i < |texts|
        ensures Records(file)[i] == texts[i]
      {
        assert Tabbed(texts)[i][1..] == texts[i];
      }
    }
  }

  lemma {:induction false} JoinNonEmpty(parts: seq<string>)
    requires |parts| > 0 && |parts[0]| > 0
    ensures Join(parts, Separator) != ""
  {
  }

  /** An empty record list gives the two brackets with an empty line between. */
  lemma EmptyArray()
    ensures JsonArray([]) == "[\n\n]"
  {
  }
}
