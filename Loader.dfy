/**
 * The CSV ingestor: candidate file names are fetched one after another
 * until one answers with status 200; when none does, the page falls back
 * to four built-in sample records. The network is the `server` parameter:
 * the response a GET of each file name would receive.
 */
module Loader {
  import opened Optional
  import opened Categories
  import opened Records

  /** The completed response to one GET request. */
  datatype Response = Response(status: int, body: string)

  /** The candidate files, in the order they are tried. */
  const FileNames: seq<string> := ["welfare_resources_utf8.csv", "非正式資源編碼.csv"]

  /**
   * `tryLoadCSV` from index 0: fetches the names in order, stops at the
   * first status 200 and delivers its text; None when every fetch failed.
   */
  method TryLoadCSV(fileNames: seq<string>, server: string -> Response) returns (attempted: seq<string>, data: Option<string>)
    ensures |attempted| <= |fileNames| && attempted == fileNames[..|attempted|]
    ensures forall k :: 0 <= k < |attempted| - 1 ==> server(attempted[k]).status != 200
    ensures data.Some? ==>
              attempted != [] &&
              server(attempted[|attempted| - 1]).status == 200 &&
              data.value == server(attempted[|attempted| - 1]).body
    ensures data.None? ==>
              attempted == fileNames && forall k :: 0 <= k < |fileNames| ==> server(fileNames[k]).status != 200
    ensures data.Some? <==> exists k :: 0 <= k < |fileNames| && server(fileNames[k]).status == 200
  {
    attempted := [];
    var index := 0;
    while index < |fileNames|
      invariant 0 <= index <= |fileNames|
      invariant attempted == fileNames[..index]
      invariant forall k :: 0 <= k < index ==> server(fileNames[k]).status != 200
    {
      var fileName := fileNames[index];
      attempted := attempted + [fileName];
      var response := server(fileName);
      if response.status == 200 {
        assert attempted == fileNames[..index + 1];
        return attempted, Some(response.body);
      }
      index := index + 1;
    }
    assert fileNames[..index] == fileNames;
    data := None;
  }

  /** `useSampleData`: the four built-in records, one per category. */
  function SampleResources(): seq<Resource> {
    [ Resource(1, "某基金會", Foundation, "桃園市中正區羅斯福路一段7號", "02-2321-1234"),
      Resource(2, "某里長辦公室", Chief, "桃園市中山區南京東路142號", "02-2505-6789"),
      Resource(3, "某教會", Church, "桃園市大安區和平東路二段86號", "02-2736-5432"),
      Resource(4, "某鎖匠店", Locksmith, "桃園市大同區承德路三段153號", "02-2592-7654") ]
  }

  /** The sample set: ids 1 to 4 and one record of each category, in the order foundation, chief, church, locksmith. */
  lemma SampleShape()
    ensures |SampleResources()| == 4
    ensures forall k :: 0 <= k < 4 ==> SampleResources()[k].id == k + 1
    ensures [SampleResources()[0].category, SampleResources()[1].category,
             SampleResources()[2].category, SampleResources()[3].category] == [Foundation, Chief, Church, Locksmith]
  {
  }
}
