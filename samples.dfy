/** The sample document that the data store returns for one sample id. */
module Samples {
  import opened Wrappers

  /**
   * A sample: its id, name, run directory, the `sample_sheet.priority`
   * label, the value of its automated `ssi_stamper` stamp and the value of
   * its expert `supplying_lab_check` stamp. `None` stands for a field that is
   * NaN in the sample table.
   */
  datatype Sample = Sample(
    id: string,
    name: string,
    path: string,
    priority: Option<string>,
    automatedStamp: Option<string>,
    expertStamp: Option<string>)

  /** `docs[i]` is the last document with id `id`. */
  predicate LastWithId(docs: seq<Sample>, i: int, id: string) {
    0 <= i < |docs| && docs[i].id == id && forall j :: i < j < |docs| ==> docs[j].id != id
  }

  /**
   * The samples keyed by id. When two documents share an id the later one
   * wins, as in a dict comprehension over the documents.
   */
  function IndexById(docs: seq<Sample>): (index: map<string, Sample>)
    ensures forall id :: id in index <==> exists i :: 0 <= i < |docs| && docs[i].id == id
    ensures forall id :: id in index ==> exists i :: LastWithId(docs, i, id) && docs[i] == index[id]
  {
    if docs == [] then map[]
    else
      var n := |docs| - 1;
      var prefix := docs[..n];
      var init := IndexById(prefix);
      var index := init[docs[n].id := docs[n]];
      assert forall i :: 0 <= i < n ==> prefix[i] == docs[i];
      assert LastWithId(docs, n, docs[n].id);
      assert forall id :: id in index ==> exists i :: LastWithId(docs, i, id) && docs[i] == index[id] by {
        forall id | id in index && id != docs[n].id
          ensures exists i :: LastWithId(docs, i, id) && docs[i] == index[id]
        {
          var i :| LastWithId(prefix, i, id) && prefix[i] == init[id];
          LastWithIdSnoc(docs, i, id);
        }
      }
      index
  }

  lemma LastWithIdSnoc(docs: seq<Sample>, i: int, id: string)
    requires docs != [] && LastWithId(docs[..|docs| - 1], i, id) && docs[|docs| - 1].id != id
    ensures LastWithId(docs, i, id) && docs[i] == docs[..|docs| - 1][i]
  {
  }
}
